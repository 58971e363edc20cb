# sockly: remote object access, modelled in Dafny

sockly lets one endpoint publish an object graph (`expose`) and another use it
through a proxy (`link`), over any text message channel. This project models the
four parts of `src/sockly.ts` and proves what they promise:

- **Path resolution** (`Paths`): `reducePath` is a left fold of `o ? o[prop] : o`
  over the path's segments. `Assign` is the in-place assignment `refParent[prop] = value`.
  Because the model's graph is a value tree, that assignment is a rewrite of the tree.
- **Exposer** (`Expose`): `Handle` is the message listener as a function. It takes
  the graph before and a parsed message, and gives the graph after and the response,
  if any. The class `Exposer` holds the graph and an outbox. Its method `OnMessage`
  updates the graph, pops the path and appends the response, and is proved equal to `Handle`.
- **Correlator** (`Correlation`): the class `Correlator` holds the seed, the counter,
  the `callbacks` map and the outbox. Ids are `uid-counter`, with the counter written
  in decimal. A registered `[resolve, reject]` pair is an entry that moves from
  `Waiting` to `Resolved` or `Rejected`, once.
- **Proxy generator** (`Proxies`): a proxy is its path. `Intercept` gives the get, set
  and apply traps: the value a trap returns, and the request it hands to the handler, if any.
- **Link** (`Linking`): composes the correlator and the traps (`Link`, `Touch`).
  It connects the three parts end to end (`RoundTrip`, `WriteThenAwait`,
  `CallThenAwait`). It also holds five scenarios: a greeting call, a counter
  set then read, a raised "boom", a raised `undefined`, and a message without an id.

Messages are the already-parsed JSON objects. An absent field is `Undefined`, an
absent `path` or `args` is `[]`, and an absent `error` is "". "Sending" appends
to an outbox sequence. A callable is an opaque `FnId`. What it does is an
`Invoker` parameter: given the callable, the receiver and the arguments, it
returns a result, raises a `Failure` (message and `toString()` text), or raises
`undefined` or `null` (`ThrewNullish`).

The behaviour follows the code, including where a plain reading of the protocol
might expect something else:

- A message with a truthy type other than `G`, `S` or `A` still gets an empty
  response. This includes a response (`'R'`). So an exposer that is fed its own
  responses answers them again, and `Expose.RepliesAreAnswered` proves that this
  continues for any number of rounds. This matters on a channel where both ends
  expose.
- A Set on the empty path or with an empty last segment does not report an
  error. It changes nothing and sends an empty response.
- A Set path whose parent is not an object is different. The assignment throws
  a TypeError: the bundles are strict-mode code, where assigning a property on
  a primitive throws. The throw escapes the async listener, so no response is
  sent and the caller's entry stays `Waiting`. This is modelled as "no response",
  not excluded by a precondition.
- An Apply whose callable raises `undefined` or `null` (or rejects without a
  reason) is the same. Reading `err.message` inside the `catch` throws a
  TypeError, which also escapes the listener before the send, so no response is
  sent and the call stays `Waiting` (`Linking.CallHangs`).
- Settled entries are never removed from `callbacks`. A second response for the
  same id changes nothing, because a settled promise ignores later calls.
- Reading `then` on the root returns `{ then: () => receiver }`. Its `then`
  property is a function that returns the root proxy, so `await remote`
  resolves to the root proxy itself at once and nothing is sent. The model
  returns `SelfThenable(root)` and issues no request.
- A response whose `error` is "" counts as having no error and resolves with its
  `value` (`Linking.CallThenAwait` states this case).

## Model

| member | source | states |
|---|---|---|
| `Paths.Resolve` | src/sockly.ts:27 | resolving the empty path yields the node itself; a falsy node resolves to itself along any path |
| `Paths.ResolveAppend` | src/sockly.ts:27 | the fold over `p + q` is the fold over `q` started from the fold over `p` |
| `Paths.ResolveSnoc` | src/sockly.ts:27 | one more segment is one more step `o ? o[prop] : o` |
| `Paths.ShortCircuit` | src/sockly.ts:27 | once an intermediate value is falsy, the remaining steps return that value unchanged, with no error |
| `Paths.ResolveObjectStep` | src/sockly.ts:27 | a path that reaches an object passes only through objects that hold each segment |
| `Paths.Parent` | src/sockly.ts:35 | `path.slice(0, -1)`: the empty path stays empty, otherwise the parent plus the last segment is the path |
| `Paths.Assign` | src/sockly.ts:43 | assigning onto an object at a path gives an object of the same kind at the root |
| `Paths.AssignReadBack` | src/sockly.ts:43 | after `refParent[key] = v`, resolving the parent path plus `key` yields `v` |
| `Paths.AssignParentSlots` | src/sockly.ts:43 | the parent object afterwards is the old one with `key` bound to `v`; every other slot of it is unchanged |
| `Paths.AssignBelow` | src/sockly.ts:43 | paths under the assigned slot read into the assigned value |
| `Paths.AssignFrame` | src/sockly.ts:43 | a path that neither leads to nor passes through the assigned slot resolves exactly as before |
| `Values.ErrorText` | src/sockly.ts:50 | `err.message || err.toString()` is one of the two texts, and is empty exactly when both are (then the caller sees no error) |
| `Protocol.Stamp` | src/sockly.ts:83-87 | under a non-empty id, a sent request has a truthy id and type, so an exposer handles it, and its type is never `'R'`, so no correlator takes it for a response |
| `Expose.NotCallable` | src/sockly.ts:48-50 | applying a non-callable reference raises a failure whose text is non-empty |
| `Expose.Exposer.constructor` | src/sockly.ts:26-28 | an exposer starts with the given graph and callables and has sent nothing |
| `Expose.Exposer.OnMessage` | src/sockly.ts:28-57 | the graph afterwards and the response appended to the outbox (none or exactly one) are those of `Handle` on the graph before |
| `Expose.DropsMalformed` | src/sockly.ts:32 | a message with a falsy `id` or `type` changes nothing and gets no response |
| `Expose.OneResponse` | src/sockly.ts:31-55 | a response is sent if and only if the message is well formed and handling it does not escape: neither a Set onto a non-object nor an Apply whose callable raises `undefined` or `null`; it carries the same id and type `'R'` |
| `Expose.GetAnswers` | src/sockly.ts:37-39 | Get answers with the resolved reference, no error, and leaves the graph unchanged |
| `Expose.GetIdempotent` | src/sockly.ts:34-39 | repeating a Get gives the same graph and the same answer |
| `Expose.SetAssigns` | src/sockly.ts:40-45 | a Set with a truthy last segment onto an object assigns `value` to that one slot, other slots unchanged, and answers with neither value nor error |
| `Expose.SetThenGet` | src/sockly.ts:37-45 | after such a Set, a Get of the same path answers with the value set |
| `Expose.SetFrame` | src/sockly.ts:40-45 | a Set leaves every path unrelated to its own path as it was |
| `Expose.SetIgnored` | src/sockly.ts:41-44 | a Set on the empty path or with an empty last segment changes nothing and still answers with an empty response |
| `Expose.ApplyOutcome` | src/sockly.ts:46-54 | Apply leaves the graph alone; it sends nothing exactly when the callable raises `undefined` or `null`, and otherwise answers with the callable's result (receiver = resolved parent, args in order) with no error, or no value and the failure's text (also for a non-callable) |
| `Expose.UnknownKind` | src/sockly.ts:36-54 | a truthy type other than G, S, A falls through the switch: an empty response with the same id, no change |
| `Expose.RepliesAreAnswered` | src/sockly.ts:32-54 | the exposer's response, fed back to it any number of times, is answered each time with a response carrying the same id |
| `Expose.EchoKeepsId` | src/sockly.ts:32-54 | a well-formed `'R'` message is answered again and again with its id |
| `Correlation.Decimal` | src/sockly.ts:83 | `${counter}` is never empty, and is a single character exactly when the counter is below 10 |
| `Correlation.DecimalDigits` | src/sockly.ts:83 | `${counter}` consists of decimal digits only, and starts with `0` only for 0 |
| `Correlation.DecimalInjective` | src/sockly.ts:83 | different counter values render differently |
| `Correlation.RequestId` | src/sockly.ts:83 | an id is the seed, a `-`, and the counter's digits |
| `Correlation.IdsDistinct` | src/sockly.ts:83 | ids allocated under one seed from different counter values are different |
| `Correlation.NextIdFresh` | src/sockly.ts:83-86 | the next id is not among those already registered, and registering it extends the issued set by exactly that id |
| `Correlation.SettleKeepsKeys` | src/sockly.ts:69-77 | settlement never adds or removes entries of `callbacks` |
| `Correlation.SettleIgnores` | src/sockly.ts:69-71 | a response with a falsy or unknown id, or with a type other than `'R'`, settles nothing |
| `Correlation.SettleMatched` | src/sockly.ts:69-77 | a matched waiting entry is rejected exactly when `error` is truthy, and otherwise resolved with `value` |
| `Correlation.SettleIsolated` | src/sockly.ts:70-76 | settling one id leaves every other entry as it was, so concurrent calls settle independently |
| `Correlation.SettledOnce` | src/sockly.ts:70-77 | a settled entry keeps its outcome whatever arrives later |
| `Correlation.Correlator.constructor` | src/sockly.ts:60-63 | a new correlator has the seed, counter 0, no callbacks and an empty outbox |
| `Correlation.Correlator.Send` | src/sockly.ts:82-89 | the counter goes up by one, the id is `uid-counter` and was not registered before, a waiting entry is registered under it, and the stamped request is sent |
| `Correlation.Correlator.OnMessage` | src/sockly.ts:65-80 | the callbacks become `Settle` of the old ones; counter and outbox are unchanged |
| `Correlation.SentIdsDistinct` | src/sockly.ts:83-87 | all requests a correlator has sent carry pairwise distinct ids |
| `Proxies.Intercept` | src/sockly.ts:94-110 | a trap issues no request exactly when it is a read of a property other than `then`, or a read of `then` at the root |
| `Proxies.RootThenIsLocal` | src/sockly.ts:95-98 | reading `then` on the root gives the root's thenable and sends nothing |
| `Proxies.ThenIssuesGet` | src/sockly.ts:95-100 | reading `then` below the root issues exactly one Get with the current path |
| `Proxies.WriteIssuesSet` | src/sockly.ts:104-107 | writing a property issues one Set with the path plus the property and the value, and the trap returns `true` |
| `Proxies.InvokeIssuesApply` | src/sockly.ts:108-110 | calling the proxy issues one Apply with the current path and the args |
| `Proxies.WalkIsLocal` | src/sockly.ts:102 | a chain of property reads builds child proxies exactly when none of them is `then`, and ends at the current path plus those properties |
| `Linking.Link` | src/sockly.ts:115-117 | `link` gives a fresh correlator (counter 0, nothing pending or sent) and the root proxy |
| `Linking.Touch` | src/sockly.ts:94-110 | a trap that issues no request leaves the correlator unchanged; one that does sends exactly that request under the next fresh id, registered as waiting |
| `Linking.RoundTrip` | src/sockly.ts:82-89 | a request's round trip sends exactly the stamped request, the exposer sends exactly its response (if any), and the new entry settles as that response says (or stays waiting when none is sent); no other entry changes |
| `Linking.Navigate` | src/sockly.ts:102 | reading properties other than `then` reaches the extended path and changes nothing in the correlator |
| `Linking.RemoteGet` | src/sockly.ts:95-100 | awaiting a non-root proxy makes the exposer answer with the resolved reference at its path, graph unchanged |
| `Linking.RemoteSetThenGet` | src/sockly.ts:104-106 | a write through the proxy is acknowledged empty, and awaiting the written path then yields the value written |
| `Linking.RemoteCall` | src/sockly.ts:108-110 | calling the proxy at a callable's path invokes it with the parent as receiver and answers with its result or failure text, or sends nothing when it raises `undefined` or `null`; the caller's entry ends as `Settlement` of what the callable did |
| `Linking.ResponseSettlesItsCall` | src/sockly.ts:65-77 | the exposer's response to a request settles exactly that request's entry and leaves the others |
| `Linking.WriteThenAwait` | src/sockly.ts:104-106 | on a fresh link, `remote.q[k] = v` settles with no value and `await remote.q[k]` then resolves to `v` |
| `Linking.CallThenAwait` | src/sockly.ts:108-110 | on a fresh link, `await remote.q(...args)` resolves with the callable's result, rejects with its failure text, resolves empty when that text is empty, or stays waiting forever when the callable raises `undefined` or `null` |
| `Linking.GreetWorld` | src/sockly.ts:46-52 | `remote.greet("world")` on `{ greet(name) => "hi " + name }` resolves to "hi world" |
| `Linking.SetCounter` | src/sockly.ts:37-45 | `remote.counter.value = 5` on `{ counter: { value: 0 } }`, then awaiting `remote.counter.value`, resolves to 5 |
| `Linking.CallFails` | src/sockly.ts:49-50 | a callable raising "boom" makes the call reject with "boom" |
| `Linking.CallHangs` | src/sockly.ts:49-54 | a callable raising `undefined` gets no response, and the call stays waiting |
| `Linking.NoIdNoResponse` | src/sockly.ts:32 | a message with no id gets no response |

## Left out

- Transport and serialisation: `addEventListener`, `connection.send`, `JSON.parse` and `JSON.stringify` are not modelled. Frames that are not strings, text that does not parse, and a `null` path are not modelled either. Messages are the parsed objects with string path segments. `JSON.stringify` dropping functions and `undefined` is not modelled.
- Promises and the JavaScript `Proxy` object: a pending call is a map entry, and a proxy is its path. A consumer's `await` is represented by the trap result `Awaiting` paired with the entry's id.
- The seed `${Date.now()}-${random}` is the constructor parameter `uid`. Clocks and randomness are outside the model.
- Values: no floating point or `NaN`, no arrays (an array can be written as an object with index keys, without `length`), and no symbol property keys. Inherited properties are not modelled: every lookup sees only own properties. This covers `Object.prototype`, the string `length` and indices, and read-only built-in function properties such as `name`.
- The graph is a tree of values. Aliasing (one object reachable by two paths) and cycles are not represented.
- `Expose.ApplyOutcome`: an own property named `apply` is not modelled, on any object. In the source, `ref.apply(refParent, args)` calls such a property with `ref` as receiver and `[refParent, args]` as arguments. So a plain object with a callable `apply` is called rather than answered with a TypeError, and a callable whose own `apply` is not callable raises a TypeError rather than being called. Passing `args` as an array would need array values, which the model does not have.
- Callables have no side effects on the exposed graph. Other messages that would be handled while an Apply awaits are not interleaved (concurrency is not modelled).
- `Expose.NotCallable`: the TypeError's text is written as V8 phrases it for unminified code. The actual text depends on the engine and on minification.
- `Correlation.Decimal`: counters are unbounded naturals. The model does not include the loss of precision above 2^53 or exponent notation from 10^21 on.
- `Correlation.Correlator.Send`: registering the pair and sending are one step. The model does not separately state that registration comes first.
- `rollup.config.js` only configures bundling, and nothing in it is modelled.
