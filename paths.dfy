/** Path resolution (`reducePath`) and property assignment on the exposed graph. */
module Paths {
  import opened Values

  /** One step of the fold: `o ? o[prop] : o`. */
  function Step(o: Value, prop: string): Value
  {
    if Truthy(o) then Lookup(o, prop) else o
  }

  /** `path.reduce((o, prop) => (o ? o[prop] : o), node)`: a left fold of `Step`. */
  function Resolve(node: Value, path: seq<string>): (r: Value)
    ensures path == [] ==> r == node
    ensures !Truthy(node) ==> r == node
    decreases |path|
  {
    if path == [] then node else Resolve(Step(node, path[0]), path[1..])
  }

  /** `path.slice(0, -1)`: every segment but the last; the empty path stays empty. */
  function Parent(path: seq<string>): (r: seq<string>)
    ensures |path| == 0 ==> r == []
    ensures |path| > 0 ==> r + [path[|path| - 1]] == path
  {
    if |path| == 0 then [] else path[..|path| - 1]
  }

  /** Resolving a concatenated path resolves the first part, then the second from there. */
  lemma {:induction false} ResolveAppend(node: Value, p: seq<string>, q: seq<string>)
    ensures Resolve(node, p + q) == Resolve(Resolve(node, p), q)
    decreases |p|
  {
    if p == [] {
      assert p + q == q;
    } else {
      assert (p + q)[0] == p[0];
      assert (p + q)[1..] == p[1..] + q;
      ResolveAppend(Step(node, p[0]), p[1..], q);
    }
  }

  /** Resolving one more segment is one more step of the fold. */
  lemma ResolveSnoc(node: Value, p: seq<string>, k: string)
    ensures Resolve(node, p + [k]) == Step(Resolve(node, p), k)
  {
    ResolveAppend(node, p, [k]);
  }

  /** Once an intermediate value is falsy, the remaining steps return it unchanged. */
  lemma ShortCircuit(node: Value, p: seq<string>, q: seq<string>)
    requires !Truthy(Resolve(node, p))
    ensures Resolve(node, p + q) == Resolve(node, p)
  {
    ResolveAppend(node, p, q);
  }

  /** A path that reaches an object passes through objects that hold each segment. */
  lemma ResolveObjectStep(node: Value, p: seq<string>)
    requires p != [] && IsObject(Resolve(node, p))
    ensures IsObject(node) && p[0] in node.props
    ensures IsObject(Resolve(node.props[p[0]], p[1..]))
  {
  }

  /**
   * `refParent[key] = v` where `refParent` is the object at `parent`: the
   * graph with that one slot replaced, every ancestor rebuilt around it.
   */
  function Assign(node: Value, parent: seq<string>, key: string, v: Value): (r: Value)
    requires IsObject(Resolve(node, parent))
    ensures IsObject(r) && r.Obj? == node.Obj?
    decreases |parent|
  {
    if parent == [] then node.(props := node.props[key := v])
    else
      ResolveObjectStep(node, parent);
      node.(props := node.props[parent[0] := Assign(node.props[parent[0]], parent[1..], key, v)])
  }

  /** Read-after-write: the assigned slot now holds `v`. */
  lemma {:induction false} AssignReadBack(node: Value, parent: seq<string>, key: string, v: Value)
    requires IsObject(Resolve(node, parent))
    ensures Resolve(Assign(node, parent, key, v), parent + [key]) == v
    decreases |parent|
  {
    if parent != [] {
      ResolveObjectStep(node, parent);
      assert (parent + [key])[0] == parent[0];
      assert (parent + [key])[1..] == parent[1..] + [key];
      AssignReadBack(node.props[parent[0]], parent[1..], key, v);
    }
  }

  /** The object at `parent` afterwards is the old one with `key` bound to `v`; its other slots are unchanged. */
  lemma {:induction false} AssignParentSlots(node: Value, parent: seq<string>, key: string, v: Value)
    requires IsObject(Resolve(node, parent))
    ensures Resolve(Assign(node, parent, key, v), parent)
         == Resolve(node, parent).(props := Resolve(node, parent).props[key := v])
    decreases |parent|
  {
    if parent != [] {
      ResolveObjectStep(node, parent);
      AssignParentSlots(node.props[parent[0]], parent[1..], key, v);
    }
  }

  /** Below the assigned slot, paths read into the assigned value. */
  lemma AssignBelow(node: Value, parent: seq<string>, key: string, v: Value, tail: seq<string>)
    requires IsObject(Resolve(node, parent))
    ensures Resolve(Assign(node, parent, key, v), parent + [key] + tail) == Resolve(v, tail)
  {
    ResolveAppend(Assign(node, parent, key, v), parent + [key], tail);
    AssignReadBack(node, parent, key, v);
  }

  /** A path that neither leads to nor passes through the assigned slot resolves as before. */
  lemma {:induction false} AssignFrame(node: Value, parent: seq<string>, key: string, v: Value, q: seq<string>)
    requires IsObject(Resolve(node, parent))
    requires !(q <= parent + [key]) && !(parent + [key] <= q)
    ensures Resolve(Assign(node, parent, key, v), q) == Resolve(node, q)
    decreases |parent|
  {
    var r := Assign(node, parent, key, v);
    assert q != [];
    if parent == [] {
      assert q[0] != key;
      assert Step(r, q[0]) == Step(node, q[0]);
    } else {
      ResolveObjectStep(node, parent);
      if q[0] != parent[0] {
        assert Step(r, q[0]) == Step(node, q[0]);
      } else {
        var child := node.props[parent[0]];
        assert (parent + [key])[1..] == parent[1..] + [key];
        assert !(q[1..] <= parent[1..] + [key]);
        assert !(parent[1..] + [key] <= q[1..]);
        AssignFrame(child, parent[1..], key, v, q[1..]);
      }
    }
  }
}
