/**
 * The array callback combinators (`find`, `findIndex`, `some`, `every`,
 * `filter`, `map`) as functions of the trace of callback calls the
 * interpreter makes.  The interpreter walks the array in index order (module
 * Interp, `Scan`, which ties each visit to its call), records one `Visit`
 * per call, and stops after the first visit whose verdict decides the
 * combinator; the result is then one of the functions below applied to that
 * trace.
 */
module Combinators {
  import opened Values

  datatype Kind = FindKind | FindIndexKind | SomeKind | EveryKind | FilterKind | MapKind

  /** The combinator named `name`; only the six names above reach it. */
  function KindOf(name: string): Kind {
    match name
    case "find" => FindKind
    case "findIndex" => FindIndexKind
    case "some" => SomeKind
    case "every" => EveryKind
    case "filter" => FilterKind
    case _ => MapKind
  }

  /**
   * One callback call: the index visited, the callback's result (`false` when
   * the callback failed), the element at that index read after the call, and
   * the interpreter states before and after the call.
   */
  datatype Visit<S> = Visit(index: nat, verdict: Value, after: Value, pre: S, post: S)

  /** Whether a verdict ends the walk. */
  predicate Stops(k: Kind, verdict: Value) {
    match k
    case FindKind => Truthy(verdict)
    case FindIndexKind => Truthy(verdict)
    case SomeKind => Truthy(verdict)
    case EveryKind => !Truthy(verdict)
    case _ => false
  }

  /** `j` is the first visit whose verdict is truthy. */
  ghost predicate FirstTruthy<S>(vs: seq<Visit<S>>, j: nat) {
    j < |vs| && Truthy(vs[j].verdict) && forall i :: 0 <= i < j ==> !Truthy(vs[i].verdict)
  }

  /** `find`: the element of the first truthy visit, or undefined if there is none. */
  function FindOf<S>(vs: seq<Visit<S>>): (r: Value)
    ensures forall j: nat :: FirstTruthy(vs, j) ==> r == vs[j].after
    ensures (forall j :: 0 <= j < |vs| ==> !Truthy(vs[j].verdict)) ==> r == Undefined
  {
    if vs == [] then Undefined
    else if Truthy(vs[0].verdict) then vs[0].after
    else
      var r := FindOf(vs[1..]);
      assert forall j: nat :: FirstTruthy(vs, j) ==> j > 0 && FirstTruthy(vs[1..], j - 1);
      r
  }

  /** `findIndex`: the index of the first truthy visit, or -1 if there is none. */
  function FindIndexOf<S>(vs: seq<Visit<S>>): (r: Value)
    ensures forall j: nat :: FirstTruthy(vs, j) ==> r == Int(vs[j].index)
    ensures (forall j :: 0 <= j < |vs| ==> !Truthy(vs[j].verdict)) ==> r == Int(-1)
  {
    if vs == [] then Int(-1)
    else if Truthy(vs[0].verdict) then Int(vs[0].index)
    else
      var r := FindIndexOf(vs[1..]);
      assert forall j: nat :: FirstTruthy(vs, j) ==> j > 0 && FirstTruthy(vs[1..], j - 1);
      r
  }

  /** `some`: true exactly when some visit's verdict is truthy. */
  function SomeOf<S>(vs: seq<Visit<S>>): (r: Value)
    ensures r == Bool(exists j :: 0 <= j < |vs| && Truthy(vs[j].verdict))
  {
    if vs == [] then Bool(false)
    else if Truthy(vs[0].verdict) then Bool(true)
    else
      var r := SomeOf(vs[1..]);
      assert (exists j :: 0 <= j < |vs| && Truthy(vs[j].verdict)) <==>
             (exists j :: 0 <= j < |vs[1..]| && Truthy(vs[1..][j].verdict)) by {
        if exists j :: 0 <= j < |vs| && Truthy(vs[j].verdict) {
          var j :| 0 <= j < |vs| && Truthy(vs[j].verdict);
          assert j > 0 && Truthy(vs[1..][j - 1].verdict);
        }
      }
      r
  }

  /** `every`: false exactly when some visit's verdict is falsy. */
  function EveryOf<S>(vs: seq<Visit<S>>): (r: Value)
    ensures r == Bool(forall j :: 0 <= j < |vs| ==> Truthy(vs[j].verdict))
  {
    if vs == [] then Bool(true)
    else if !Truthy(vs[0].verdict) then Bool(false)
    else
      var r := EveryOf(vs[1..]);
      assert (forall j :: 0 <= j < |vs| ==> Truthy(vs[j].verdict)) <==>
             (forall j :: 0 <= j < |vs[1..]| ==> Truthy(vs[1..][j].verdict)) by {
        if forall j :: 0 <= j < |vs[1..]| ==> Truthy(vs[1..][j].verdict) {
          forall j | 0 <= j < |vs| ensures Truthy(vs[j].verdict) {
            if j > 0 { assert vs[j] == vs[1..][j - 1]; }
          }
        }
      }
      r
  }

  /** Visit `j` passed the filter and kept element `x`. */
  ghost predicate KeptAt<S>(vs: seq<Visit<S>>, j: int, x: Value) {
    0 <= j < |vs| && Truthy(vs[j].verdict) && vs[j].after == x
  }

  /** `filter`: the elements of the truthy visits, in visiting order. */
  function FilterOf<S>(vs: seq<Visit<S>>): (r: seq<Value>)
    ensures |r| <= |vs|
    ensures forall x :: x in r <==> exists j :: KeptAt(vs, j, x)
  {
    if vs == [] then []
    else
      var rest := FilterOf(vs[1..]);
      var r := if Truthy(vs[0].verdict) then [vs[0].after] + rest else rest;
      forall x ensures x in r <==> exists j :: KeptAt(vs, j, x) {
        if x in r {
          if !KeptAt(vs, 0, x) {
            assert x in rest;
            var j :| KeptAt(vs[1..], j, x);
            assert KeptAt(vs, j + 1, x);
          }
        }
        if j :| KeptAt(vs, j, x) {
          if j > 0 {
            assert KeptAt(vs[1..], j - 1, x);
            assert x in rest;
          }
        }
      }
      r
  }

  /** Filtering a trace piecewise: the kept elements of the first part come first (order is preserved). */
  lemma {:induction false} FilterOfAppend<S>(vs: seq<Visit<S>>, ws: seq<Visit<S>>)
    ensures FilterOf(vs + ws) == FilterOf(vs) + FilterOf(ws)
  {
    if vs == [] {
      assert vs + ws == ws;
    } else {
      assert (vs + ws)[0] == vs[0];
      assert (vs + ws)[1..] == vs[1..] + ws;
      FilterOfAppend(vs[1..], ws);
    }
  }

  /**
   * `map`: `new Array(n)` filled by index.  Visit `j` writes slot `j`; slots
   * the walk never reached (the array shrank during the walk) stay holes,
   * which read as undefined.
   */
  function MapOf<S>(vs: seq<Visit<S>>, n: nat): (r: seq<Value>)
    ensures |r| == if |vs| > n then |vs| else n
    ensures forall j :: 0 <= j < |vs| ==> r[j] == vs[j].verdict
    ensures forall j :: |vs| <= j < |r| ==> r[j] == Undefined
  {
    var len := if |vs| > n then |vs| else n;
    seq(len, j requires 0 <= j < len => if j < |vs| then vs[j].verdict else Undefined)
  }

  /** The loop of `filter` over a trace: `out.push(obj[i])` after each truthy verdict. */
  method FilterLoop<S>(vs: seq<Visit<S>>) returns (out: seq<Value>)
    ensures out == FilterOf(vs)
  {
    out := [];
    var i := 0;
    while i < |vs|
      invariant 0 <= i <= |vs|
      invariant out == FilterOf(vs[..i])
    {
      FilterOfAppend(vs[..i], [vs[i]]);
      assert vs[..i + 1] == vs[..i] + [vs[i]];
      assert [vs[i]][1..] == [];
      if Truthy(vs[i].verdict) {
        out := out + [vs[i].after];
      }
      i := i + 1;
    }
    assert vs[..i] == vs;
  }

  /**
   * The loop of `map` over a trace: `out[i] = verdict` into
   * `new Array(n)`; a write one past the end extends the array.
   */
  method MapLoop<S>(vs: seq<Visit<S>>, n: nat) returns (out: seq<Value>)
    ensures out == MapOf(vs, n)
  {
    out := seq(n, _ => Undefined);
    var i := 0;
    while i < |vs|
      invariant 0 <= i <= |vs|
      invariant |out| == if i > n then i else n
      invariant forall j :: 0 <= j < i ==> out[j] == vs[j].verdict
      invariant forall j :: i <= j < |out| ==> out[j] == Undefined
    {
      if i < |out| {
        out := out[i := vs[i].verdict];
      } else {
        out := out + [vs[i].verdict];
      }
      i := i + 1;
    }
  }
}
