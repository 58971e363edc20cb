/** The correlator that `proxyHandler` builds for one connection. */
module Correlation {
  import opened Values
  import opened Protocol

  /** The decimal digit for `d`. */
  function Digit(d: nat): (c: char)
    requires d < 10
    ensures '0' <= c <= '9'
  {
    (48 + d) as char
  }

  /** `${n}`: the decimal rendering of a counter value, without leading zeros. */
  function Decimal(n: nat): (s: string)
    ensures |s| >= 1
    ensures (n < 10) == (|s| == 1)
    decreases n
  {
    if n < 10 then [Digit(n)] else Decimal(n / 10) + [Digit(n % 10)]
  }

  /** The rendering is canonical: decimal digits only, and no leading zero. */
  lemma {:induction false} DecimalDigits(n: nat)
    ensures forall i :: 0 <= i < |Decimal(n)| ==> '0' <= Decimal(n)[i] <= '9'
    ensures Decimal(n)[0] == '0' ==> n == 0
    decreases n
  {
    if n >= 10 {
      DecimalDigits(n / 10);
    }
  }

  /** Different counter values render differently. */
  lemma {:induction false} DecimalInjective(a: nat, b: nat)
    requires Decimal(a) == Decimal(b)
    ensures a == b
    decreases a
  {
    if a >= 10 && b >= 10 {
      var da, db := Decimal(a), Decimal(b);
      assert da[..|da| - 1] == Decimal(a / 10);
      assert db[..|db| - 1] == Decimal(b / 10);
      DecimalInjective(a / 10, b / 10);
      assert Digit(a % 10) == da[|da| - 1] == db[|db| - 1] == Digit(b % 10);
    }
  }

  /** `${uid}-${counter}`: the id of the request sent while the counter is `k`. */
  function RequestId(uid: string, k: nat): (id: string)
    ensures |id| > |uid| + 1 && id[..|uid|] == uid && id[|uid|] == '-'
  {
    uid + "-" + Decimal(k)
  }

  /** Ids taken from different counter values under one seed are different. */
  lemma IdsDistinct(uid: string, i: nat, j: nat)
    requires i != j
    ensures RequestId(uid, i) != RequestId(uid, j)
  {
    if RequestId(uid, i) == RequestId(uid, j) {
      assert RequestId(uid, i)[|uid| + 1..] == Decimal(i);
      assert RequestId(uid, j)[|uid| + 1..] == Decimal(j);
      DecimalInjective(i, j);
    }
  }

  /** The ids handed out once the counter has reached `n`. */
  function Issued(uid: string, n: nat): set<string>
  {
    set k: nat | 1 <= k <= n :: RequestId(uid, k)
  }

  /** The next id is not among those already handed out, and joins them. */
  lemma NextIdFresh(uid: string, n: nat)
    ensures RequestId(uid, n + 1) !in Issued(uid, n)
    ensures Issued(uid, n + 1) == Issued(uid, n) + {RequestId(uid, n + 1)}
  {
    if RequestId(uid, n + 1) in Issued(uid, n) {
      var k: nat :| 1 <= k <= n && RequestId(uid, k) == RequestId(uid, n + 1);
      IdsDistinct(uid, k, n + 1);
    }
  }

  /** The state of a registered `[resolve, reject]` pair: its promise is waiting or settled. */
  datatype Pending = Waiting | Resolved(value: Value) | Rejected(message: string)

  /**
   * The response listener as a function of the callbacks: a truthy id, type 'R'
   * and a registered, still waiting entry settle it — rejected with `error` when
   * that is truthy, resolved with `value` otherwise. A settled promise ignores
   * later calls, and no entry is ever removed.
   */
  function Settle(callbacks: map<string, Pending>, m: Message): (r: map<string, Pending>)
  {
    if Truthy(m.id) && m.kind == Str("R") && m.id.Str? && m.id.s in callbacks && callbacks[m.id.s].Waiting? then
      callbacks[m.id.s := Outcome(m)]
    else callbacks
  }

  /** How a response settles its call: `reject(new Error(error))` if `error` is truthy, else `resolve(value)`. */
  function Outcome(m: Message): Pending
  {
    if m.error != "" then Rejected(m.error) else Resolved(m.value)
  }

  /** Settlement never adds or removes entries. */
  lemma SettleKeepsKeys(callbacks: map<string, Pending>, m: Message)
    ensures Settle(callbacks, m).Keys == callbacks.Keys
  {
  }

  /** A response with a falsy or unknown id, or whose type is not 'R', settles nothing. */
  lemma SettleIgnores(callbacks: map<string, Pending>, m: Message)
    requires !Truthy(m.id) || m.kind != Str("R") || !m.id.Str? || m.id.s !in callbacks
    ensures Settle(callbacks, m) == callbacks
  {
  }

  /** A matched waiting entry is rejected exactly when `error` is truthy, and otherwise resolved with `value`. */
  lemma SettleMatched(callbacks: map<string, Pending>, m: Message)
    requires m.kind == Str("R") && m.id.Str? && m.id.s != "" && m.id.s in callbacks && callbacks[m.id.s].Waiting?
    ensures m.error != "" ==> Settle(callbacks, m)[m.id.s] == Rejected(m.error)
    ensures m.error == "" ==> Settle(callbacks, m)[m.id.s] == Resolved(m.value)
  {
  }

  /** Settling one entry leaves every other entry as it was: outstanding calls settle independently. */
  lemma SettleIsolated(callbacks: map<string, Pending>, m: Message, other: string)
    requires other in callbacks && m.id != Str(other)
    ensures Settle(callbacks, m)[other] == callbacks[other]
  {
  }

  /** An entry that has settled stays settled the same way, whatever arrives later. */
  lemma SettledOnce(callbacks: map<string, Pending>, m: Message, id: string)
    requires id in callbacks && !callbacks[id].Waiting?
    ensures Settle(callbacks, m)[id] == callbacks[id]
  {
  }

  /** The caller-side state of one connection: seed, counter, callbacks, and what it has sent. */
  class Correlator {
    const uid: string
    var counter: nat
    var callbacks: map<string, Pending>
    var sent: seq<Message>

    /** Every id handed out is registered, and the k-th message sent carries the k-th id. */
    ghost predicate Valid()
      reads this
    {
      callbacks.Keys == Issued(uid, counter) &&
      |sent| == counter &&
      forall i :: 0 <= i < |sent| ==> sent[i].id == Str(RequestId(uid, i + 1))
    }

    /** `proxyHandler(connection)`: the seed stands for `${Date.now()}-${random}`. */
    constructor (uid: string)
      ensures Valid()
      ensures this.uid == uid && counter == 0 && callbacks == map[] && sent == []
    {
      this.uid := uid;
      counter := 0;
      callbacks := map[];
      sent := [];
    }

    /** The handler: take the next id, register a waiting entry under it, send the request. */
    method Send(req: Request) returns (id: string)
      requires Valid()
      modifies this
      ensures Valid()
      ensures counter == old(counter) + 1 && id == RequestId(uid, counter)
      ensures id !in old(callbacks)
      ensures callbacks == old(callbacks)[id := Waiting]
      ensures sent == old(sent) + [Stamp(req, id)]
    {
      NextIdFresh(uid, counter);
      counter := counter + 1;
      id := RequestId(uid, counter);
      callbacks := callbacks[id := Waiting];
      sent := sent + [Stamp(req, id)];
    }

    /** The response listener. */
    method OnMessage(m: Message)
      requires Valid()
      modifies this
      ensures Valid()
      ensures counter == old(counter) && sent == old(sent)
      ensures callbacks == Settle(old(callbacks), m)
    {
      if Truthy(m.id) && m.kind == Str("R") && m.id.Str? && m.id.s in callbacks {
        var cb := callbacks[m.id.s];
        if cb.Waiting? {
          if m.error != "" {
            callbacks := callbacks[m.id.s := Rejected(m.error)];
          } else {
            callbacks := callbacks[m.id.s := Resolved(m.value)];
          }
        }
      }
    }
  }

  /** The messages a valid correlator has sent carry pairwise distinct ids. */
  lemma SentIdsDistinct(c: Correlator, i: nat, j: nat)
    requires c.Valid() && i < j < |c.sent|
    ensures c.sent[i].id != c.sent[j].id
  {
    IdsDistinct(c.uid, i + 1, j + 1);
  }
}
