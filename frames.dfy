/**
 * Environment frames and name resolution.
 *
 * The interpreter creates frames with `Object.create(scope)`, so a frame is a
 * table of own bindings plus a link to its parent.  Frames live in a store
 * (a sequence indexed by frame id) so that closures, which keep their
 * defining frame alive, share it.  A parent always has a smaller id than its
 * child (frames are appended), and the walks below rely on that to stop.
 */
module Frames {
  import opened Wrappers
  import opened Values

  datatype Frame = Frame(vars: map<string, Value>, parent: Option<nat>)

  /** The frame ids visited from `id` outward to the root. */
  function Chain(fs: seq<Frame>, id: nat): (r: seq<nat>)
    ensures forall k :: 0 <= k < |r| ==> r[k] < |fs|
    ensures id < |fs| ==> |r| > 0 && r[0] == id
    ensures id >= |fs| ==> r == []
    decreases id
  {
    if id >= |fs| then []
    else [id] + match fs[id].parent
      case Some(p) => if p < id then Chain(fs, p) else []
      case None => []
  }

  /** The innermost frame on the chain from `id` that owns `x`. */
  function Owner(fs: seq<Frame>, id: nat, x: string): (r: Option<nat>)
    ensures r.Some? ==> r.value < |fs| && x in fs[r.value].vars
    decreases id
  {
    if id >= |fs| then None
    else if x in fs[id].vars then Some(id)
    else match fs[id].parent
      case Some(p) => if p < id then Owner(fs, p, x) else None
      case None => None
  }

  /** Identifier read (`name in scope` then `scope[name]`). */
  function Lookup(fs: seq<Frame>, id: nat, x: string): Option<Value> {
    match Owner(fs, id, x)
    case Some(o) => Some(fs[o].vars[x])
    case None => None
  }

  /**
   * `x in scope` for a name no frame binds: the root scope inherits the
   * members of `Object.prototype`, so such a name is found (and a write to it
   * by `setVariable` lands on `Object.prototype`).
   */
  predicate RootInherits(fs: seq<Frame>, id: nat, x: string) {
    Lookup(fs, id, x).None? && ObjectProtoName(x)
  }

  /** `scope[x] = v`: creates or overwrites an own binding of frame `id`. */
  function WriteOwn(fs: seq<Frame>, id: nat, x: string, v: Value): (r: seq<Frame>)
    ensures |r| == |fs|
    ensures forall i :: 0 <= i < |fs| ==> r[i].parent == fs[i].parent
  {
    if id < |fs| then fs[id := fs[id].(vars := fs[id].vars[x := v])] else fs
  }

  /** The frame `setVariable` writes: the nearest owner, or the starting frame when nothing owns `x`. */
  function Target(fs: seq<Frame>, id: nat, x: string): nat {
    match Owner(fs, id, x)
    case Some(o) => o
    case None => id
  }

  /** `setVariable(scope, x, v)`. */
  function SetVar(fs: seq<Frame>, id: nat, x: string, v: Value): seq<Frame> {
    WriteOwn(fs, Target(fs, id, x), x, v)
  }

  /** The imperative walk of `setVariable`, over the store. */
  method SetVariable(fs: seq<Frame>, scope: nat, x: string, v: Value) returns (fs': seq<Frame>)
    ensures fs' == SetVar(fs, scope, x, v)
  {
    var current: nat := scope;
    while current < |fs|
      invariant Owner(fs, scope, x) == Owner(fs, current, x)
      decreases current
    {
      if x in fs[current].vars {
        fs' := fs[current := fs[current].(vars := fs[current].vars[x := v])];
        return;
      }
      match fs[current].parent {
        case Some(p) =>
          if p < current {
            current := p;
          } else {
            break;
          }
        case None =>
          break;
      }
    }
    fs' := WriteOwn(fs, scope, x, v);
  }

  predicate SameLinks(fs: seq<Frame>, gs: seq<Frame>) {
    |fs| == |gs| && forall k :: 0 <= k < |fs| ==> fs[k].parent == gs[k].parent
  }

  lemma {:induction false} ChainSameLinks(fs: seq<Frame>, gs: seq<Frame>, id: nat)
    requires SameLinks(fs, gs)
    ensures Chain(fs, id) == Chain(gs, id)
    decreases id
  {
    if id < |fs| {
      match fs[id].parent {
        case Some(p) => if p < id { ChainSameLinks(fs, gs, p); }
        case None =>
      }
    }
  }

  /**
   * Resolution is innermost-first: `Owner` is the first frame on the chain
   * that owns `x`, and there is none exactly when no frame on the chain does.
   */
  lemma {:induction false} OwnerIsInnermost(fs: seq<Frame>, id: nat, x: string) returns (k: nat)
    ensures Owner(fs, id, x).Some? ==>
      && k < |Chain(fs, id)| && Chain(fs, id)[k] == Owner(fs, id, x).value
      && forall j :: 0 <= j < k ==> x !in fs[Chain(fs, id)[j]].vars
    ensures Owner(fs, id, x).None? <==> forall j :: 0 <= j < |Chain(fs, id)| ==> x !in fs[Chain(fs, id)[j]].vars
    decreases id
  {
    k := 0;
    if id < |fs| && x !in fs[id].vars {
      match fs[id].parent {
        case Some(p) =>
          if p < id {
            var k' := OwnerIsInnermost(fs, p, x);
            k := k' + 1;
            assert Chain(fs, id) == [id] + Chain(fs, p);
          }
        case None =>
      }
    }
  }

  /** An identifier read returns the binding of the innermost owning frame, and fails exactly when no frame owns the name. */
  lemma LookupInnermost(fs: seq<Frame>, id: nat, x: string)
    ensures Lookup(fs, id, x).None? <==> forall j :: 0 <= j < |Chain(fs, id)| ==> x !in fs[Chain(fs, id)[j]].vars
    ensures Lookup(fs, id, x).Some? ==>
      exists k :: 0 <= k < |Chain(fs, id)| && x in fs[Chain(fs, id)[k]].vars
        && Lookup(fs, id, x).value == fs[Chain(fs, id)[k]].vars[x]
        && forall j :: 0 <= j < k ==> x !in fs[Chain(fs, id)[j]].vars
  {
    var k := OwnerIsInnermost(fs, id, x);
  }

  lemma {:induction false} OwnerOtherName(fs: seq<Frame>, gs: seq<Frame>, t: nat, x: string, w: Value, y: string, id: nat)
    requires SameLinks(fs, gs) && x != y
    requires forall k :: 0 <= k < |fs| && k != t ==> gs[k] == fs[k]
    requires t < |fs| ==> gs[t].vars == fs[t].vars[x := w]
    ensures Owner(gs, id, y) == Owner(fs, id, y)
    ensures Lookup(gs, id, y) == Lookup(fs, id, y)
    decreases id
  {
    if id < |fs| {
      assert (y in gs[id].vars) == (y in fs[id].vars);
      match fs[id].parent {
        case Some(p) => if p < id { OwnerOtherName(fs, gs, t, x, w, y, p); }
        case None =>
      }
    }
  }

  lemma {:induction false} OwnerAfterWrite(fs: seq<Frame>, id: nat, x: string, v: Value)
    requires id < |fs|
    ensures Owner(SetVar(fs, id, x, v), id, x) == Some(Target(fs, id, x))
    decreases id
  {
    var gs := SetVar(fs, id, x, v);
    var t := Target(fs, id, x);
    if x !in fs[id].vars {
      match fs[id].parent {
        case Some(p) =>
          if p < id && Owner(fs, p, x).Some? {
            OwnerAfterWrite(fs, p, x, v);
            assert SetVar(fs, p, x, v) == gs;
          }
        case None =>
      }
    }
  }

  /**
   * `setVariable` changes exactly one binding: afterwards the name reads as
   * the new value from the starting frame, every other frame is unchanged,
   * the written frame keeps its other bindings and its parent, and no other
   * name reads differently from any frame.
   */
  lemma SetVarEffect(fs: seq<Frame>, id: nat, x: string, v: Value)
    requires id < |fs|
    ensures var gs := SetVar(fs, id, x, v);
      && |gs| == |fs|
      && (forall k :: 0 <= k < |fs| && k != Target(fs, id, x) ==> gs[k] == fs[k])
      && gs[Target(fs, id, x)] == Frame(fs[Target(fs, id, x)].vars[x := v], fs[Target(fs, id, x)].parent)
      && Lookup(gs, id, x) == Some(v)
      && forall y, j: nat :: y != x ==> Lookup(gs, j, y) == Lookup(fs, j, y)
  {
    var gs := SetVar(fs, id, x, v);
    var t := Target(fs, id, x);
    OwnerAfterWrite(fs, id, x, v);
    forall y, j: nat | y != x ensures Lookup(gs, j, y) == Lookup(fs, j, y) {
      OwnerOtherName(fs, gs, t, x, v, y, j);
    }
  }

  /** When no frame owns the name, `setVariable` creates it in the frame it started from. */
  lemma SetVarUnownedWritesCurrent(fs: seq<Frame>, id: nat, x: string, v: Value)
    requires id < |fs| && Lookup(fs, id, x).None?
    ensures SetVar(fs, id, x, v)[id].vars == fs[id].vars[x := v]
    ensures forall k :: 0 <= k < |fs| && k != id ==> SetVar(fs, id, x, v)[k] == fs[k]
  {
  }
}
