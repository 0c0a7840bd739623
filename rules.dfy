/**
 * The rule of each construct of `exec`: what it evaluates, in which order
 * and in which state, and what it yields or throws, one step at a time.
 * Each lemma unfolds one helper of module Interp and states its outcome in
 * terms of the outcomes of the sub-evaluations it makes; together with the
 * lemmas of module Properties they give the behaviour of every construct
 * the model covers.
 */
module Rules {
  import opened Wrappers
  import opened Values
  import opened Ast
  import opened Operators
  import opened Frames
  import opened Store
  import opened Combinators
  import opened Templates
  import opened Interp

  // ---------------------------------------------------------------------
  // Programs and blocks

  /**
   * The statements of a program run in order, each in the state the
   * previous one left; the program's value is that of its last statement.
   * A `return` at top level ends the program with the returned value; any
   * other throw ends it and propagates.
   */
  lemma ProgramStep(ss: seq<Node>, scope: nat, st: State, last: Value, fuel: nat)
    requires fuel > 0
    ensures ss == [] ==> ExecStmts(ss, scope, st, last, fuel) == Ok(Normal(last), st)
    ensures ss != [] ==>
      var o := Exec(ss[0], scope, st, fuel - 1);
      var r := ExecStmts(ss, scope, st, last, fuel);
      && (o.Stuck? ==> r == o)
      && (o.Ok? && o.c.Normal? ==> r == ExecStmts(ss[1..], scope, o.st, o.c.value, fuel - 1))
      && (o.Ok? && o.c.Threw? && o.c.thrown.Exn? && o.c.thrown.exn.ReturnSignal? ==>
            r == Ok(Normal(o.c.thrown.exn.returned), o.st))
      && (o.Ok? && o.c.Threw? && Flag(o.st, o.c.thrown, ReturnFlag) == Some(false) ==> r == o)
  {
  }

  /**
   * A block runs its statements in order in the current frame and yields
   * undefined.  A statement whose value is truthy and carries a truthy
   * `__return` is thrown; a throw ends the block.
   */
  lemma BlockStep(ss: seq<Node>, scope: nat, st: State, fuel: nat)
    requires fuel > 0
    ensures ss == [] ==> ExecBlock(ss, scope, st, fuel) == Ok(Normal(Undefined), st)
    ensures ss != [] ==>
      var o := Exec(ss[0], scope, st, fuel - 1);
      var r := ExecBlock(ss, scope, st, fuel);
      && (o.IsFailure() ==> r == o)
      && (!o.IsFailure() && Truthy(o.c.value) && Flag(o.st, o.c.value, ReturnFlag) == Some(true) ==>
            r == Ok(Threw(o.c.value), o.st))
      && (!o.IsFailure() && (!Truthy(o.c.value) || Flag(o.st, o.c.value, ReturnFlag) == Some(false)) ==>
            r == ExecBlock(ss[1..], scope, o.st, fuel - 1))
  {
  }

  /** A literal evaluates to its value and changes nothing; a RegExp literal is host code. */
  lemma LiteralValue(lit: Lit, scope: nat, st: State, fuel: nat)
    requires fuel > 0
    ensures var r := Exec(Literal(lit), scope, st, fuel);
      && (lit.LNull? ==> r == Ok(Normal(Null), st))
      && (lit.LBool? ==> r == Ok(Normal(Bool(lit.b)), st))
      && (lit.LNum? ==> r == Ok(Normal(Int(lit.n)), st))
      && (lit.LStr? ==> r == Ok(Normal(Str(lit.s)), st))
      && (lit.LRegex? ==> r.Stuck?)
  {
  }

  /** `break` and `continue` throw their signals and change nothing. */
  lemma JumpsThrowSignals(scope: nat, st: State, fuel: nat)
    requires fuel > 0
    ensures Exec(BreakStatement, scope, st, fuel) == Ok(Threw(Exn(BreakSignal)), st)
    ensures Exec(ContinueStatement, scope, st, fuel) == Ok(Threw(Exn(ContinueSignal)), st)
  {
  }

  /**
   * A function declaration inside a body binds its name, as an own binding
   * of the current frame, to one new plain function closing over that frame,
   * and yields undefined.
   */
  lemma FunctionDeclared(id: string, ps: seq<Node>, body: Node, scope: nat, st: State, fuel: nat)
    requires fuel > 0
    ensures var r := Exec(FunctionDeclaration(id, ps, body), scope, st, fuel);
      && r.Ok? && r.c == Normal(Undefined)
      && r.st.callables == st.callables + [Fun(PlainFn, ps, body, scope, true)]
      && r.st.frames == WriteOwn(st.frames, scope, id, Closure(|st.callables|))
      && r.st.arrays == st.arrays && r.st.objects == st.objects
  {
  }

  /** A node of a type the switch does not list throws the unsupported-node Error naming that type. */
  lemma UnsupportedNode(t: string, scope: nat, st: State, fuel: nat)
    requires fuel > 0
    ensures Exec(Other(t), scope, st, fuel) == Ok(Threw(Exn(Error("Unsupported AST node type: " + t))), st)
  {
  }

  // ---------------------------------------------------------------------
  // try

  /**
   * After a block that threw into a handler with a named parameter, and a
   * handler that was not stuck: the finalizer runs in the state the handler
   * left.  Its own throw replaces the outcome; otherwise the handler's
   * outcome (its value or its throw) stands.
   */
  lemma TryFinalizerAfterHandler(b: Node, p: string, hb: Node, f: Node, scope: nat, st: State, fuel: nat)
    requires fuel > 0 && !f.Empty? && p != ""
    ensures var o := Exec(b, scope, st, fuel - 1);
      o.Ok? && o.c.Threw? ==>
        var hr := Exec(hb, |o.st.frames|, o.st.(frames := o.st.frames + [Frame(map[p := o.c.thrown], Some(scope))]), fuel - 1);
        hr.Ok? ==>
          var fo := Exec(f, scope, hr.st, fuel - 1);
          ExecTry(b, Some(Catch(Identifier(p), hb)), f, scope, st, fuel)
            == if fo.Ok? && fo.c.Normal? then Ok(hr.c, fo.st) else fo
  {
  }

  /**
   * After a block that threw with no handler: the throw is dropped, the
   * finalizer runs, and unless it throws, `try` completes with undefined.
   */
  lemma TryFinalizerAfterSwallow(b: Node, f: Node, scope: nat, st: State, fuel: nat)
    requires fuel > 0 && !f.Empty?
    ensures var o := Exec(b, scope, st, fuel - 1);
      o.Ok? && o.c.Threw? ==>
        var fo := Exec(f, scope, o.st, fuel - 1);
        ExecTry(b, None, f, scope, st, fuel) == if fo.Ok? && fo.c.Normal? then Ok(Normal(Undefined), fo.st) else fo
  {
    var o := Exec(b, scope, st, fuel - 1);
    if o.Ok? && o.c.Threw? {
      var fo := Exec(f, scope, o.st, fuel - 1);
      assert ExecTry(b, None, f, scope, st, fuel)
        == match fo
           case Stuck(why) => Stuck(why)
           case Ok(Threw(e), st3) => Ok(Threw(e), st3)
           case Ok(Normal(_), st3) => Ok(Normal(Undefined), st3);
    }
  }

  /** A block that completes is the outcome of `try` when there is no finalizer; the handler does not run. */
  lemma TryCompletedBlock(b: Node, h: Option<Catch>, scope: nat, st: State, fuel: nat)
    requires fuel > 0
    ensures var o := Exec(b, scope, st, fuel - 1);
      (o.Stuck? || (o.Ok? && o.c.Normal?)) ==> ExecTry(b, h, Empty, scope, st, fuel) == o
  {
  }

  // ---------------------------------------------------------------------
  // Expressions

  /**
   * A template literal evaluates its expressions in order, converts each
   * value to a string, and interleaves the strings with the quasis; a value
   * with no string form outside the model is `Stuck`.
   */
  lemma TemplateValue(qs: seq<string>, es: seq<Node>, scope: nat, st: State, fuel: nat)
    requires fuel > 0
    ensures var g := EvalList(es, [], scope, st, fuel - 1);
      var r := ExecTemplate(qs, es, scope, st, fuel);
      && (g.Fail? ==> r == g.r)
      && (g.Done? && ToStrs(g.val).Some? ==> r == Ok(Normal(Str(TemplateJoin(qs, ToStrs(g.val).value))), g.st))
      && (g.Done? && ToStrs(g.val).None? ==> r.Stuck?)
  {
  }

  /** `return e` throws a return signal carrying the value of `e`, in the state `e` left. */
  lemma ReturnThrowsSignal(a: Node, scope: nat, st: State, fuel: nat)
    requires fuel > 0
    ensures var o := Exec(a, scope, st, fuel - 1);
      var r := ExecReturn(a, scope, st, fuel);
      && (o.IsFailure() ==> r == o)
      && (!o.IsFailure() ==> r == Ok(Threw(Exn(ReturnSignal(o.c.value))), o.st))
  {
  }

  /**
   * `if` and `?:` evaluate the test, then exactly one branch, picked by the
   * test's truthiness, in the state the test left.
   */
  lemma CondPicksBranch(t: Node, c: Node, a: Node, scope: nat, st: State, fuel: nat)
    requires fuel > 1
    ensures var o := Exec(t, scope, st, fuel - 1);
      ExecCond(t, c, a, scope, st, fuel)
        == if o.IsFailure() then o else if Truthy(o.c.value) then Exec(c, scope, o.st, fuel - 1) else Exec(a, scope, o.st, fuel - 1)
  {
  }

  /** An `if` without `else` whose test is falsy yields undefined, in the state the test left. */
  lemma CondWithoutElse(t: Node, c: Node, scope: nat, st: State, fuel: nat)
    requires fuel > 1
    ensures var o := Exec(t, scope, st, fuel - 1);
      !o.IsFailure() && !Truthy(o.c.value) ==> ExecCond(t, c, Empty, scope, st, fuel) == Ok(Normal(Undefined), o.st)
  {
    var o := Exec(t, scope, st, fuel - 1);
    if !o.IsFailure() && !Truthy(o.c.value) {
      assert Exec(Empty, scope, o.st, fuel - 1) == Ok(Normal(Undefined), o.st);
    }
  }

  /**
   * A binary expression evaluates the left operand, then the right one in
   * the state the left one left, and only then applies the operator: an
   * operator outside the table throws the unsupported-operator Error after
   * both operands were evaluated.
   */
  lemma BinaryOperands(op: string, left: Node, right: Node, scope: nat, st: State, fuel: nat)
    requires fuel > 0
    ensures var l := Exec(left, scope, st, fuel - 1);
      var r := ExecBinary(op, left, right, scope, st, fuel);
      && (l.IsFailure() ==> r == l)
      && (!l.IsFailure() ==>
            var rt := Exec(right, scope, l.st, fuel - 1);
            && (rt.IsFailure() ==> r == rt)
            && (!rt.IsFailure() ==>
                  && (Binary(op, l.c.value, rt.c.value).Val? ==> r == Ok(Normal(Binary(op, l.c.value, rt.c.value).v), rt.st))
                  && (Binary(op, l.c.value, rt.c.value).Unsupported? ==> r == Ok(Threw(Exn(Error("Unsupported operator: " + op))), rt.st))
                  && (Binary(op, l.c.value, rt.c.value).Unmodelled? ==> r.Stuck?)))
  {
    var l := Exec(left, scope, st, fuel - 1);
    if !l.IsFailure() {
      var rt := Exec(right, scope, l.st, fuel - 1);
      if !rt.IsFailure() {
        var b := Binary(op, l.c.value, rt.c.value);
        if b.Val? {} else if b.Unsupported? {} else {}
      }
    }
  }

  /** A unary expression evaluates its operand, then applies the operator. */
  lemma UnaryOperand(op: string, a: Node, scope: nat, st: State, fuel: nat)
    requires fuel > 0
    ensures var o := Exec(a, scope, st, fuel - 1);
      var r := ExecUnary(op, a, scope, st, fuel);
      && (o.IsFailure() ==> r == o)
      && (!o.IsFailure() ==>
            && (Unary(op, o.c.value).Val? ==> r == Ok(Normal(Unary(op, o.c.value).v), o.st))
            && (Unary(op, o.c.value).Unsupported? ==> r == Ok(Threw(Exn(Error("Unsupported unary operator: " + op))), o.st))
            && (Unary(op, o.c.value).Unmodelled? ==> r.Stuck?))
  {
    var o := Exec(a, scope, st, fuel - 1);
    if !o.IsFailure() {
      var u := Unary(op, o.c.value);
      if u.Val? {} else if u.Unsupported? {} else {}
    }
  }

  // ---------------------------------------------------------------------
  // Loops

  /** A `while` body that completes goes back to the test, in the state the body left. */
  lemma WhileBodyRepeats(t: Node, body: Node, scope: nat, st: State, fuel: nat)
    requires fuel > 0
    ensures var o := Exec(t, scope, st, fuel - 1);
      !o.IsFailure() && Truthy(o.c.value) ==>
        var ob := Exec(body, scope, o.st, fuel - 1);
        ob.Ok? && ob.c.Normal? ==> WhileLoop(t, body, scope, st, fuel) == WhileLoop(t, body, scope, ob.st, fuel - 1)
  {
  }

  /** A `for` test that throws or is falsy ends the loop: the throw propagates, a falsy value gives undefined. */
  lemma ForTestEnds(t: Node, u: Node, body: Node, scope: nat, st: State, fuel: nat)
    requires fuel > 0
    ensures var o := Exec(t, scope, st, fuel - 1);
      var r := ForLoop(t, u, body, scope, st, fuel);
      && (o.IsFailure() ==> r == o)
      && (!o.IsFailure() && !Truthy(o.c.value) ==> r == Ok(Normal(Undefined), o.st))
  {
  }

  /** `for (init; ...)` runs the initialiser once, then the loop in the state it left; a throw from it propagates. */
  lemma ForInitFirst(init: Node, t: Node, u: Node, body: Node, scope: nat, st: State, fuel: nat)
    requires fuel > 0
    ensures var o := Exec(init, scope, st, fuel - 1);
      ExecFor(init, t, u, body, scope, st, fuel)
        == if o.IsFailure() then o else ForLoop(t, u, body, scope, o.st, fuel - 1)
  {
  }

  /**
   * `for (left of right)` evaluates the collection once; a value that is
   * not iterable throws a TypeError, otherwise the loop starts at element 0
   * in the state the collection left.
   */
  lemma ForOfStarts(left: Node, right: Node, body: Node, scope: nat, st: State, fuel: nat)
    requires fuel > 0
    ensures var o := Exec(right, scope, st, fuel - 1);
      ExecForOf(left, right, body, scope, st, fuel)
        == if o.IsFailure() then o
           else if IsIterable(o.c.value) then ForOfLoop(left, o.c.value, 0, body, scope, o.st, fuel - 1)
           else Ok(Threw(Exn(TypeError("L'oggetto nel for...of non è iterabile"))), o.st)
  {
  }

  // ---------------------------------------------------------------------
  // Literals and declarations

  /** An array literal allocates one new array holding the elements, in the state the elements left. */
  lemma ArrayLiteral(es: seq<Node>, scope: nat, st: State, fuel: nat)
    requires fuel > 0
    ensures var g := ArrayElems(es, [], scope, st, fuel - 1);
      ExecArray(es, scope, st, fuel)
        == if g.Fail? then g.r else Ok(Normal(Arr(|g.st.arrays|)), g.st.(arrays := g.st.arrays + [g.val]))
  {
  }

  /** A hole in an array literal throws the TypeError of reading `type` off null, before anything after it runs. */
  lemma ArrayHole(es: seq<Node>, acc: seq<Value>, scope: nat, st: State, fuel: nat)
    requires fuel > 0
    ensures es != [] && es[0].Empty? ==>
      ArrayElems(es, acc, scope, st, fuel) == Fail(Ok(Threw(Exn(TypeError("Cannot read properties of null (reading 'type')"))), st))
  {
  }

  /** A plain element of an array literal is evaluated and appended; the next one runs in the state it left. */
  lemma ArrayElemPlain(es: seq<Node>, acc: seq<Value>, scope: nat, st: State, fuel: nat)
    requires fuel > 0
    ensures es != [] && !es[0].Empty? && !es[0].SpreadElement? ==>
      var o := Exec(es[0], scope, st, fuel - 1);
      ArrayElems(es, acc, scope, st, fuel)
        == if o.IsFailure() then Fail(o) else ArrayElems(es[1..], acc + [o.c.value], scope, o.st, fuel - 1)
  {
  }

  /** `...e` in an array literal appends the elements of an array or the characters of a string; anything else throws a TypeError. */
  lemma ArrayElemSpread(es: seq<Node>, acc: seq<Value>, scope: nat, st: State, fuel: nat)
    requires fuel > 0
    ensures es != [] && es[0].SpreadElement? ==>
      var o := Exec(es[0].argument, scope, st, fuel - 1);
      ArrayElems(es, acc, scope, st, fuel)
        == if o.IsFailure() then Fail(o)
           else if IsIterable(o.c.value) then ArrayElems(es[1..], acc + Spread(o.st, o.c.value), scope, o.st, fuel - 1)
           else Fail(Ok(Threw(Exn(TypeError("SpreadElement in array deve essere iterabile"))), o.st))
  {
  }

  /** An object literal allocates one new record, with no prototype, holding the merged properties. */
  lemma ObjectLiteral(ps: seq<Node>, scope: nat, st: State, fuel: nat)
    requires fuel > 0
    ensures var g := ObjectProps(ps, map[], scope, st, fuel - 1);
      ExecObject(ps, scope, st, fuel)
        == if g.Fail? then g.r else Ok(Normal(Rec(|g.st.objects|)), g.st.(objects := g.st.objects + [Obj(g.val, None)]))
  {
  }

  /**
   * `...e` in an object literal merges the own entries of `e` over the
   * properties so far; a primitive or null throws a TypeError.
   */
  lemma ObjectSpread(a: Node, ps: seq<Node>, acc: map<string, Value>, scope: nat, st: State, fuel: nat)
    requires fuel > 0
    ensures var o := Exec(a, scope, st, fuel - 1);
      ObjectProps([SpreadElement(a)] + ps, acc, scope, st, fuel)
        == if o.IsFailure() then Fail(o)
           else if TypeOf(o.c.value) != "object" || o.c.value == Null then
             Fail(Ok(Threw(Exn(TypeError("SpreadElement in object deve essere un oggetto"))), o.st))
           else ObjectProps(ps, acc + OwnEntries(o.st, o.c.value), scope, o.st, fuel - 1)
  {
    assert ([SpreadElement(a)] + ps)[1..] == ps;
  }

  /**
   * `k: v` in an object literal: an identifier key is its name, any other
   * key is evaluated first; then the value; the key's string form is
   * written, overriding an earlier property of that name.  A `__proto__`
   * key runs the prototype setter instead, which the model leaves to the
   * host.
   */
  lemma ObjectProperty(k: Node, v: Node, ps: seq<Node>, acc: map<string, Value>, scope: nat, st: State, fuel: nat)
    requires fuel > 0
    ensures var ko := if k.Identifier? then Ok(Normal(Str(k.name)), st) else Exec(k, scope, st, fuel - 1);
      !ko.IsFailure() ==>
        var vo := Exec(v, scope, ko.st, fuel - 1);
        ObjectProps([Property(k, v)] + ps, acc, scope, st, fuel)
          == if vo.IsFailure() then Fail(vo)
             else if ToStr(ko.c.value).None? then Fail(Stuck("string conversion of an object key"))
             else if ToStr(ko.c.value).value == "__proto__" then Fail(Stuck("__proto__ setter"))
             else ObjectProps(ps, acc[ToStr(ko.c.value).value := vo.c.value], scope, vo.st, fuel - 1)
  {
    var ps' := [Property(k, v)] + ps;
    assert ps'[0] == Property(k, v) && ps'[1..] == ps;
    var ko := if k.Identifier? then Ok(Normal(Str(k.name)), st) else Exec(k, scope, st, fuel - 1);
    if !ko.IsFailure() {
      var key := ToStr(ko.c.value);
      assert key.Some? ==> (Blocked(false, key.value) <==> key.value == "__proto__");
    }
  }

  /** Any other entry of an object literal throws the unsupported-property Error, naming its node type. */
  lemma ObjectOtherEntry(p: Node, ps: seq<Node>, acc: map<string, Value>, scope: nat, st: State, fuel: nat)
    requires fuel > 0 && !p.SpreadElement? && !p.Property?
    ensures ObjectProps([p] + ps, acc, scope, st, fuel)
      == Fail(Ok(Threw(Exn(Error("Unsupported object property type: " + TypeName(p)))), st))
  {
    assert ([p] + ps)[0] == p;
  }

  /** A declarator evaluates its initialiser, binds it by its pattern, and the next declarator runs in the state that left. */
  lemma DeclareStep(ds: seq<Declarator>, scope: nat, st: State, fuel: nat)
    requires fuel > 0
    ensures ds == [] ==> DeclareAll(ds, scope, st, fuel) == Ok(Normal(Undefined), st)
    ensures ds != [] ==>
      var o := Exec(ds[0].init, scope, st, fuel - 1);
      !o.IsFailure() ==>
        var b := BindPattern(ds[0].id, o.c.value, scope, o.st, fuel - 1);
        DeclareAll(ds, scope, st, fuel) == if b.IsFailure() then b else DeclareAll(ds[1..], scope, b.st, fuel - 1)
  {
  }

  // ---------------------------------------------------------------------
  // Argument lists

  /**
   * `es` were evaluated in order from the states `sts`: expression `j` ran
   * in the state expression `j - 1` left and gave value `vs[j]`.
   */
  ghost predicate EvaluatedInOrder(es: seq<Node>, vs: seq<Value>, sts: seq<State>, scope: nat, fuel: nat) {
    && |vs| == |es| && |sts| == |es| + 1 && |es| < fuel
    && forall j :: 0 <= j < |es| ==> Exec(es[j], scope, sts[j], fuel - 1 - j) == Ok(Normal(vs[j]), sts[j + 1])
  }

  /** A list evaluates its first expression; a throw ends it, otherwise the rest follows in the state it left. */
  lemma EvalListStep(es: seq<Node>, acc: seq<Value>, scope: nat, st: State, fuel: nat)
    requires fuel > 0
    ensures es == [] ==> EvalList(es, acc, scope, st, fuel) == Done(acc, st)
    ensures es != [] ==>
      var o := Exec(es[0], scope, st, fuel - 1);
      EvalList(es, acc, scope, st, fuel)
        == if o.IsFailure() then Fail(o) else EvalList(es[1..], acc + [o.c.value], scope, o.st, fuel - 1)
  {
  }

  /** Prepending one evaluated expression to a list evaluated in order. */
  lemma InOrderCons(e: Node, es: seq<Node>, v: Value, vs: seq<Value>, st: State, sts: seq<State>, scope: nat, fuel: nat)
    requires fuel > 0 && |sts| > 0
    requires Exec(e, scope, st, fuel - 1) == Ok(Normal(v), sts[0])
    requires EvaluatedInOrder(es, vs, sts, scope, fuel - 1)
    ensures EvaluatedInOrder([e] + es, [v] + vs, [st] + sts, scope, fuel)
  {
    var es', vs', sts' := [e] + es, [v] + vs, [st] + sts;
    forall j | 0 <= j < |es'|
      ensures Exec(es'[j], scope, sts'[j], fuel - 1 - j) == Ok(Normal(vs'[j]), sts'[j + 1])
    {
      if j > 0 {
        assert es'[j] == es[j - 1] && vs'[j] == vs[j - 1] && sts'[j] == sts[j - 1] && sts'[j + 1] == sts[j];
      }
    }
  }

  /** A sequence that starts with `acc + [v]` starts with `acc`, and its part after `acc` starts with `v`. */
  lemma SplitAfter(xs: seq<Value>, acc: seq<Value>, v: Value)
    requires |xs| > |acc| && xs[..|acc| + 1] == acc + [v]
    ensures xs[..|acc|] == acc && xs[|acc|..] == [v] + xs[|acc| + 1..]
  {
    assert xs[..|acc|] == xs[..|acc| + 1][..|acc|];
    assert xs[|acc|] == xs[..|acc| + 1][|acc|];
  }

  /** The states a completed list passes through, from `st` to the state it ends in. */
  lemma {:induction false} EvalListTrace(es: seq<Node>, acc: seq<Value>, scope: nat, st: State, fuel: nat) returns (sts: seq<State>)
    ensures var r := EvalList(es, acc, scope, st, fuel);
      r.Done? ==>
        && r.val[..|acc|] == acc
        && |sts| > 0 && sts[0] == st && sts[|sts| - 1] == r.st
        && EvaluatedInOrder(es, r.val[|acc|..], sts, scope, fuel)
    decreases |es|
  {
    var r := EvalList(es, acc, scope, st, fuel);
    sts := [st];
    if r.Done? {
      EvalListStep(es, acc, scope, st, fuel);
      if es == [] {
        assert EvaluatedInOrder(es, r.val[|acc|..], [st], scope, fuel);
      } else {
        var o := Exec(es[0], scope, st, fuel - 1);
        var acc' := acc + [o.c.value];
        assert EvalList(es[1..], acc', scope, o.st, fuel - 1) == r;
        var rest := EvalListTrace(es[1..], acc', scope, o.st, fuel - 1);
        SplitAfter(r.val, acc, o.c.value);
        InOrderCons(es[0], es[1..], o.c.value, r.val[|acc| + 1..], st, rest, scope, fuel);
        assert [es[0]] + es[1..] == es;
        sts := [st] + rest;
        assert sts[|sts| - 1] == rest[|rest| - 1];
      }
    }
  }

  /** A completed list holds `acc` followed by the value of each expression, evaluated left to right. */
  lemma EvalListInOrder(es: seq<Node>, acc: seq<Value>, scope: nat, st: State, fuel: nat)
    ensures var r := EvalList(es, acc, scope, st, fuel);
      r.Done? ==>
        && r.val[..|acc|] == acc
        && exists sts: seq<State> :: |sts| > 0 && sts[0] == st && sts[|sts| - 1] == r.st
             && EvaluatedInOrder(es, r.val[|acc|..], sts, scope, fuel)
  {
    var sts := EvalListTrace(es, acc, scope, st, fuel);
  }

  /** Call arguments: a plain argument is appended; `...e` appends the elements of an array and throws a TypeError on anything else. */
  lemma SpreadArgsStep(es: seq<Node>, acc: seq<Value>, scope: nat, st: State, fuel: nat)
    requires fuel > 0
    ensures es == [] ==> EvalSpreadArgs(es, acc, scope, st, fuel) == Done(acc, st)
    ensures es != [] ==>
      var isSpread := es[0].SpreadElement?;
      var o := Exec(if isSpread then es[0].argument else es[0], scope, st, fuel - 1);
      EvalSpreadArgs(es, acc, scope, st, fuel)
        == if o.IsFailure() then Fail(o)
           else if !isSpread then EvalSpreadArgs(es[1..], acc + [o.c.value], scope, o.st, fuel - 1)
           else if o.c.value.Arr? then EvalSpreadArgs(es[1..], acc + Spread(o.st, o.c.value), scope, o.st, fuel - 1)
           else Fail(Ok(Threw(Exn(TypeError("SpreadElement deve essere un array"))), o.st))
  {
  }

  // ---------------------------------------------------------------------
  // Member access

  /** A computed key is the value of the property expression; a static key is the property's name. */
  lemma MemberKeyRule(p: Node, computed: bool, scope: nat, st: State, fuel: nat)
    requires fuel > 0
    ensures MemberKey(p, computed, scope, st, fuel) == if computed then Exec(p, scope, st, fuel - 1) else Ok(Normal(StaticKey(p)), st)
    ensures !computed && (p.Identifier? || p.PrivateIdentifier?) ==> MemberKey(p, computed, scope, st, fuel) == Ok(Normal(Str(p.name)), st)
  {
  }

  /** A throw while evaluating the object propagates from `o.p`, and gives undefined from `o?.p`; the key is not evaluated. */
  lemma MemberObjectThrows(o: Node, p: Node, computed: bool, optional: bool, scope: nat, st: State, fuel: nat)
    requires fuel > 0
    ensures var ob := Exec(o, scope, st, fuel - 1);
      ob.Ok? && ob.c.Threw? ==>
        ExecMember(o, p, computed, optional, scope, st, fuel) == if optional then Ok(Normal(Undefined), ob.st) else ob
  {
  }

  /** `o?.p` on a null or undefined object gives undefined without evaluating the key. */
  lemma MemberOptionalNullish(o: Node, p: Node, computed: bool, scope: nat, st: State, fuel: nat)
    requires fuel > 0
    ensures var ob := Exec(o, scope, st, fuel - 1);
      ob.Ok? && ob.c.Normal? && Nullish(ob.c.value) ==>
        ExecMember(o, p, computed, true, scope, st, fuel) == Ok(Normal(Undefined), ob.st)
  {
  }

  /** `o.p` on a null or undefined object evaluates the key, then throws a TypeError naming the key and the object. */
  lemma MemberOfNullish(o: Node, p: Node, computed: bool, scope: nat, st: State, fuel: nat)
    requires fuel > 0
    ensures var ob := Exec(o, scope, st, fuel - 1);
      ob.Ok? && ob.c.Normal? && Nullish(ob.c.value) ==>
        var k := MemberKey(p, computed, scope, ob.st, fuel - 1);
        !k.IsFailure() && ToStr(k.c.value).Some? ==>
          ExecMember(o, p, computed, false, scope, st, fuel)
            == Ok(Threw(Exn(TypeError("Impossibile accedere a proprietà '" + ToStr(k.c.value).value + "' di " + ToStr(ob.c.value).value))), k.st)
  {
  }

  /** On an object that is not null or undefined, a throw while evaluating a computed key propagates. */
  lemma MemberKeyThrows(o: Node, p: Node, computed: bool, optional: bool, scope: nat, st: State, fuel: nat)
    requires fuel > 0
    ensures var ob := Exec(o, scope, st, fuel - 1);
      ob.Ok? && ob.c.Normal? && !Nullish(ob.c.value) ==>
        var k := MemberKey(p, computed, scope, ob.st, fuel - 1);
        k.IsFailure() ==> ExecMember(o, p, computed, optional, scope, st, fuel) == k
  {
  }

  /** `o.p` on an object that is not null or undefined reads the property after the key; a value that is not a function is the result. */
  lemma MemberValue(o: Node, p: Node, computed: bool, optional: bool, scope: nat, st: State, fuel: nat)
    requires fuel > 0
    ensures var ob := Exec(o, scope, st, fuel - 1);
      ob.Ok? && ob.c.Normal? && !Nullish(ob.c.value) ==>
        var k := MemberKey(p, computed, scope, ob.st, fuel - 1);
        !k.IsFailure() ==>
          var got := GetProp(k.st, ob.c.value, k.c.value);
          got.Some? && !got.value.Closure? ==> ExecMember(o, p, computed, optional, scope, st, fuel) == Ok(Normal(got.value), k.st)
  {
  }

  /** A function read off an object that is not an array is returned as a new callable bound to that object. */
  lemma MemberBindsMethod(o: Node, p: Node, computed: bool, optional: bool, scope: nat, st: State, fuel: nat)
    requires fuel > 0
    ensures var ob := Exec(o, scope, st, fuel - 1);
      ob.Ok? && ob.c.Normal? && !Nullish(ob.c.value) && !ob.c.value.Arr? ==>
        var k := MemberKey(p, computed, scope, ob.st, fuel - 1);
        !k.IsFailure() ==>
          var got := GetProp(k.st, ob.c.value, k.c.value);
          got.Some? && got.value.Closure? ==>
            ExecMember(o, p, computed, optional, scope, st, fuel)
              == Ok(Normal(Closure(|k.st.callables|)), k.st.(callables := k.st.callables + [Bound(got.value.fn, ob.c.value)]))
  {
  }

  // ---------------------------------------------------------------------
  // new

  /** `new` evaluates the callee, then the arguments in the state the callee left; a throw from either propagates. */
  lemma NewOperandsFirst(callee: Node, args: seq<Node>, scope: nat, st: State, fuel: nat)
    requires fuel > 0
    ensures var c := Exec(callee, scope, st, fuel - 1);
      && (c.IsFailure() ==> ExecNew(callee, args, scope, st, fuel) == c)
      && (!c.IsFailure() ==>
            var g := EvalList(args, [], scope, c.st, fuel - 1);
            g.Fail? ==> ExecNew(callee, args, scope, st, fuel) == g.r)
  {
  }

  /** `new` on a value that is not a function throws a TypeError naming the callee's node type, after the arguments. */
  lemma NewNotConstructor(callee: Node, args: seq<Node>, scope: nat, st: State, fuel: nat)
    requires fuel > 0
    ensures var c := Exec(callee, scope, st, fuel - 1);
      !c.IsFailure() && !c.c.value.Closure? ==>
        var g := EvalList(args, [], scope, c.st, fuel - 1);
        g.Done? ==>
          ExecNew(callee, args, scope, st, fuel) == Ok(Threw(Exn(TypeError(NotConstructorMessage(callee, c.c.value)))), g.st)
  {
  }

  /** `new` on a function constructs it with the evaluated arguments. */
  lemma NewConstructs(callee: Node, args: seq<Node>, scope: nat, st: State, fuel: nat)
    requires fuel > 0
    ensures var c := Exec(callee, scope, st, fuel - 1);
      !c.IsFailure() && c.c.value.Closure? ==>
        var g := EvalList(args, [], scope, c.st, fuel - 1);
        g.Done? ==> ExecNew(callee, args, scope, st, fuel) == Construct(c.c.value.fn, g.val, g.st, fuel - 1)
  {
  }

  /**
   * What constructs: a plain function or an arrow throws "not a
   * constructor"; a class instantiates; a bound callable constructs its
   * target, its bound receiver playing no part.
   */
  lemma ConstructRule(f: nat, args: seq<Value>, st: State, fuel: nat)
    requires fuel > 0 && f < |st.callables|
    ensures st.callables[f].Fun? ==> Construct(f, args, st, fuel) == Ok(Threw(Exn(TypeError("not a constructor"))), st)
    ensures st.callables[f].ClassFn? ==>
      Construct(f, args, st, fuel) == Instantiate(st.callables[f].ctor, st.callables[f].proto, args, st, fuel - 1)
    ensures st.callables[f].Bound? ==> Construct(f, args, st, fuel) == Construct(st.callables[f].target, args, st, fuel - 1)
  {
  }

  // ---------------------------------------------------------------------
  // Calls

  /** Calling a class, as a function, instantiates it like `new` does. */
  lemma ApplyClass(f: nat, receiver: Value, args: seq<Value>, st: State, fuel: nat)
    requires fuel > 0 && f < |st.callables| && st.callables[f].ClassFn?
    ensures Apply(f, receiver, args, st, fuel) == Instantiate(st.callables[f].ctor, st.callables[f].proto, args, st, fuel - 1)
  {
  }

  /** A call whose callee is a member expression evaluates the object, then dispatches on it. */
  lemma CallOnMember(callee: Node, args: seq<Node>, scope: nat, st: State, fuel: nat)
    requires fuel > 0 && callee.MemberExpression?
    ensures var o := Exec(callee.obj, scope, st, fuel - 1);
      ExecCall(callee, args, scope, st, fuel) == if o.IsFailure() then o else ReceiverCall(o.c.value, callee, args, scope, o.st, fuel - 1)
  {
  }

  /** Any other call evaluates the callee, then the arguments; a throw from either propagates. */
  lemma CallOperandsFirst(callee: Node, args: seq<Node>, scope: nat, st: State, fuel: nat)
    requires fuel > 0 && !callee.MemberExpression?
    ensures var fo := Exec(callee, scope, st, fuel - 1);
      && (fo.IsFailure() ==> ExecCall(callee, args, scope, st, fuel) == fo)
      && (!fo.IsFailure() ==>
            var g := EvalList(args, [], scope, fo.st, fuel - 1);
            g.Fail? ==> ExecCall(callee, args, scope, st, fuel) == g.r)
  {
  }

  /** A callee that is not a function throws a TypeError once the arguments are evaluated; a function is applied with `this` undefined. */
  lemma CallApplies(callee: Node, args: seq<Node>, scope: nat, st: State, fuel: nat)
    requires fuel > 0 && !callee.MemberExpression?
    ensures var fo := Exec(callee, scope, st, fuel - 1);
      !fo.IsFailure() ==>
        var g := EvalList(args, [], scope, fo.st, fuel - 1);
        g.Done? ==>
          ExecCall(callee, args, scope, st, fuel)
            == if fo.c.value.Closure? then Apply(fo.c.value.fn, Undefined, g.val, g.st, fuel - 1)
               else Ok(Threw(Exn(TypeError("Callee non è una funzione"))), g.st)
  {
  }

  /**
   * A member call dispatches on the receiver: an array takes the array
   * path, a string evaluates the key first (`includes` is host code), any
   * other value takes the general method path.
   */
  lemma ReceiverDispatch(obj: Value, m: Node, args: seq<Node>, scope: nat, st: State, fuel: nat)
    requires fuel > 0 && m.MemberExpression?
    ensures obj.Arr? ==> ReceiverCall(obj, m, args, scope, st, fuel) == ArrayCall(obj.arr, m, args, scope, st, fuel - 1)
    ensures !obj.Arr? && !obj.Str? ==> ReceiverCall(obj, m, args, scope, st, fuel) == MethodCall(obj, m, args, scope, st, fuel - 1)
    ensures obj.Str? ==>
      var k := MemberKey(m.property, m.computed, scope, st, fuel - 1);
      ReceiverCall(obj, m, args, scope, st, fuel)
        == if k.IsFailure() then k
           else if k.c.value == Str("includes") then Stuck("String.prototype.includes")
           else MethodCall(obj, m, args, scope, k.st, fuel - 1)
  {
  }

  /** `o?.m()` on a null or undefined receiver gives undefined without evaluating the key or the arguments. */
  lemma MethodOptionalNullish(obj: Value, m: Node, args: seq<Node>, scope: nat, st: State, fuel: nat)
    requires fuel > 0 && m.MemberExpression? && m.optional && Nullish(obj)
    ensures MethodCall(obj, m, args, scope, st, fuel) == Ok(Normal(Undefined), st)
  {
  }

  /** `o.m()` on a null or undefined receiver throws a TypeError naming the method and the receiver, before the arguments. */
  lemma MethodOfNullish(obj: Value, m: Node, args: seq<Node>, scope: nat, st: State, fuel: nat)
    requires fuel > 0 && m.MemberExpression? && !m.optional && Nullish(obj)
    ensures var k := MemberKey(m.property, m.computed, scope, st, fuel - 1);
      !k.IsFailure() && ToStr(k.c.value).Some? ==>
        MethodCall(obj, m, args, scope, st, fuel)
          == Ok(Threw(Exn(TypeError("Impossibile accedere al metodo '" + ToStr(k.c.value).value + "' di " + ToStr(obj).value))), k.st)
  {
  }

  /**
   * The method read off the receiver: with `?.` an undefined method gives
   * undefined; a value that is not a function throws a TypeError before
   * the arguments are evaluated.
   */
  lemma MethodNotFunction(obj: Value, m: Node, args: seq<Node>, scope: nat, st: State, fuel: nat)
    requires fuel > 0 && m.MemberExpression? && !Nullish(obj)
    ensures var k := MemberKey(m.property, m.computed, scope, st, fuel - 1);
      !k.IsFailure() && ToStr(k.c.value).Some? ==>
        var fn := GetProp(k.st, obj, k.c.value);
        fn.Some? && !fn.value.Closure? ==>
          MethodCall(obj, m, args, scope, st, fuel)
            == if m.optional && fn.value == Undefined then Ok(Normal(Undefined), k.st)
               else Ok(Threw(Exn(TypeError("'" + ToStr(k.c.value).value + "' non è una funzione"))), k.st)
  {
  }

  /** A method that is a function is applied to the receiver, with the arguments (spreads expanded) evaluated after the key. */
  lemma MethodApplies(obj: Value, m: Node, args: seq<Node>, scope: nat, st: State, fuel: nat)
    requires fuel > 0 && m.MemberExpression? && !Nullish(obj)
    ensures var k := MemberKey(m.property, m.computed, scope, st, fuel - 1);
      !k.IsFailure() && ToStr(k.c.value).Some? ==>
        var fn := GetProp(k.st, obj, k.c.value);
        fn.Some? && fn.value.Closure? ==>
          var g := EvalSpreadArgs(args, [], scope, k.st, fuel - 1);
          MethodCall(obj, m, args, scope, st, fuel) == if g.Fail? then g.r else Apply(fn.value.fn, obj, g.val, g.st, fuel - 1)
  {
  }

  /** A function stored in an array is applied to the array, after the arguments. */
  lemma ArrayOwnFunction(a: nat, m: Node, args: seq<Node>, scope: nat, st: State, fuel: nat)
    requires fuel > 0 && m.MemberExpression?
    ensures var k := MemberKey(m.property, m.computed, scope, st, fuel - 1);
      !k.IsFailure() && ToStr(k.c.value).Some? ==>
        var fn := GetProp(k.st, Arr(a), k.c.value);
        fn.Some? && fn.value.Closure? ==>
          var g := EvalSpreadArgs(args, [], scope, k.st, fuel - 1);
          ArrayCall(a, m, args, scope, st, fuel) == if g.Fail? then g.r else Apply(fn.value.fn, Arr(a), g.val, g.st, fuel - 1)
  {
    var k := MemberKey(m.property, m.computed, scope, st, fuel - 1);
    if !k.IsFailure() && ToStr(k.c.value).Some? {
      var fn := GetProp(k.st, Arr(a), k.c.value);
      if fn.Some? && fn.value.Closure? {
        var g := EvalSpreadArgs(args, [], scope, k.st, fuel - 1);
        if g.Fail? {} else {}
      }
    }
  }

  /** A non-function value read off an array, or `__proto__`, throws a TypeError before the arguments are evaluated. */
  lemma ArrayNotFunction(a: nat, m: Node, args: seq<Node>, scope: nat, st: State, fuel: nat)
    requires fuel > 0 && m.MemberExpression?
    ensures var k := MemberKey(m.property, m.computed, scope, st, fuel - 1);
      !k.IsFailure() && ToStr(k.c.value).Some? ==>
        var fn := GetProp(k.st, Arr(a), k.c.value);
        ((fn.Some? && !fn.value.Closure?) || (fn.None? && ToStr(k.c.value).value == "__proto__")) ==>
          ArrayCall(a, m, args, scope, st, fuel)
            == Ok(Threw(Exn(TypeError("'" + ToStr(k.c.value).value + "' non è una funzione su Array"))), k.st)
  {
  }

  /**
   * Any other `Array.prototype` method: the arguments are evaluated, and a
   * callback combinator whose first argument is a function runs in the
   * model; the other methods are host code.
   */
  lemma ArrayPrototypeCall(a: nat, m: Node, args: seq<Node>, scope: nat, st: State, fuel: nat)
    requires fuel > 0 && m.MemberExpression?
    ensures var k := MemberKey(m.property, m.computed, scope, st, fuel - 1);
      !k.IsFailure() && ToStr(k.c.value).Some? ==>
        var ks := ToStr(k.c.value).value;
        GetProp(k.st, Arr(a), k.c.value).None? && ks != "__proto__" ==>
          var g := EvalSpreadArgs(args, [], scope, k.st, fuel - 1);
          ArrayCall(a, m, args, scope, st, fuel)
            == if g.Fail? then g.r
               else if |g.val| > 0 && g.val[0].Closure? && ks in CombinatorNames then Combinator(ks, a, g.val[0].fn, g.val, g.st, fuel - 1)
               else Stuck("host array method " + ks)
  {
  }

  // ---------------------------------------------------------------------
  // reduce and forEach

  /** `forEach` runs its loop from index 0 with `this` the second argument; a throw from a callback propagates, otherwise the result is undefined. */
  lemma ForEachStarts(a: nat, cb: nat, args: seq<Value>, st: State, fuel: nat)
    requires fuel > 0
    ensures var o := ForEach(a, cb, ArgAt(args, 1), 0, st, fuel - 1);
      Combinator("forEach", a, cb, args, st, fuel) == if o.IsFailure() then o else Ok(Normal(Undefined), o.st)
  {
  }

  /**
   * `reduce` with a seed folds from index 0; without one it throws a
   * TypeError on an empty array and otherwise folds from index 1 with
   * element 0 as the seed.
   */
  lemma ReduceStarts(a: nat, cb: nat, args: seq<Value>, st: State, fuel: nat)
    requires fuel > 0
    ensures Combinator("reduce", a, cb, args, st, fuel)
      == if |args| >= 2 then Reduce(a, cb, ArgAt(args, 1), args[1], 0, st, fuel - 1)
         else if ArrayLen(st, a) == 0 then Ok(Threw(Exn(TypeError("Reduce of empty array with no initial value"))), st)
         else Reduce(a, cb, ArgAt(args, 1), ArrayAt(st, a, 0), 1, st, fuel - 1)
  {
  }

  /** An evaluation that completed normally with value `v` in state `st`. */
  predicate Gives(r: Res, v: Value, st: State) {
    r == Ok(Normal(v), st)
  }

  /**
   * The callback was called with `(acc, element, index, array)` on the
   * indices `i`, `i + 1`, ... in order, below the array's length at each
   * call: call `j` ran in the state call `j - 1` left, on the element read
   * then, with the value call `j - 1` returned, and returned `accs[j + 1]`.
   */
  ghost predicate Folded(a: nat, cb: nat, thisArg: Value, i: nat, accs: seq<Value>, sts: seq<State>, fuel: nat)
    decreases |sts|
  {
    && |accs| == |sts| && 0 < |sts| <= fuel
    && (|sts| > 1 ==>
          && i < ArrayLen(sts[0], a)
          && Gives(Apply(cb, thisArg, [accs[0], ArrayAt(sts[0], a, i), Int(i), Arr(a)], sts[0], fuel - 1), accs[1], sts[1])
          && Folded(a, cb, thisArg, i + 1, accs[1..], sts[1..], fuel - 1))
  }

  /** The calls a completed fold made. */
  lemma {:induction false} ReduceTrace(a: nat, cb: nat, thisArg: Value, acc: Value, i: nat, st: State, fuel: nat)
    returns (accs: seq<Value>, sts: seq<State>)
    ensures var r := Reduce(a, cb, thisArg, acc, i, st, fuel);
      r.Ok? && r.c.Normal? ==>
        && |accs| == |sts| > 0 && accs[0] == acc && sts[0] == st
        && Folded(a, cb, thisArg, i, accs, sts, fuel)
        && Gives(r, accs[|accs| - 1], sts[|sts| - 1])
        && i + |sts| - 1 >= ArrayLen(r.st, a)
    decreases fuel
  {
    accs, sts := [acc], [st];
    var r := Reduce(a, cb, thisArg, acc, i, st, fuel);
    if fuel == 0 || !(r.Ok? && r.c.Normal?) {
      return;
    }
    ReduceStep(a, cb, thisArg, acc, i, st, fuel);
    if i < ArrayLen(st, a) {
      var o := Apply(cb, thisArg, [acc, ArrayAt(st, a, i), Int(i), Arr(a)], st, fuel - 1);
      assert Reduce(a, cb, thisArg, o.c.value, i + 1, o.st, fuel - 1) == r;
      var accs', sts' := ReduceTrace(a, cb, thisArg, o.c.value, i + 1, o.st, fuel - 1);
      accs, sts := [acc] + accs', [st] + sts';
      assert accs[1..] == accs' && sts[1..] == sts';
      assert accs[|accs| - 1] == accs'[|accs'| - 1] && sts[|sts| - 1] == sts'[|sts'| - 1];
    }
  }

  /**
   * A fold that completes called the callback once per index from `i`
   * on, in order, threading the accumulator, until the array (as the
   * callbacks left it) was exhausted; its value is the last accumulator.
   */
  lemma ReduceFolds(a: nat, cb: nat, thisArg: Value, acc: Value, i: nat, st: State, fuel: nat)
    ensures var r := Reduce(a, cb, thisArg, acc, i, st, fuel);
      r.Ok? && r.c.Normal? ==>
        exists accs: seq<Value>, sts: seq<State> ::
          && |accs| == |sts| > 0 && accs[0] == acc && sts[0] == st
          && Folded(a, cb, thisArg, i, accs, sts, fuel)
          && Gives(r, accs[|accs| - 1], sts[|sts| - 1])
          && i + |sts| - 1 >= ArrayLen(r.st, a)
  {
    var accs, sts := ReduceTrace(a, cb, thisArg, acc, i, st, fuel);
  }

  /**
   * One step of the fold: past the end the accumulator is the value;
   * otherwise the callback runs on element `i`, and its throw ends
   * `reduce` or its value is the next accumulator.
   */
  lemma ReduceStep(a: nat, cb: nat, thisArg: Value, acc: Value, i: nat, st: State, fuel: nat)
    requires fuel > 0
    ensures i >= ArrayLen(st, a) ==> Reduce(a, cb, thisArg, acc, i, st, fuel) == Ok(Normal(acc), st)
    ensures i < ArrayLen(st, a) ==>
      var o := Apply(cb, thisArg, [acc, ArrayAt(st, a, i), Int(i), Arr(a)], st, fuel - 1);
      Reduce(a, cb, thisArg, acc, i, st, fuel) == if o.IsFailure() then o else Reduce(a, cb, thisArg, o.c.value, i + 1, o.st, fuel - 1)
  {
  }

  /** One step of `forEach`: past the end the loop gives undefined; otherwise the callback runs on element `i`, and its throw ends the loop. */
  lemma ForEachStep(a: nat, cb: nat, thisArg: Value, i: nat, st: State, fuel: nat)
    requires fuel > 0
    ensures i >= ArrayLen(st, a) ==> ForEach(a, cb, thisArg, i, st, fuel) == Ok(Normal(Undefined), st)
    ensures i < ArrayLen(st, a) ==>
      var o := Apply(cb, thisArg, [ArrayAt(st, a, i), Int(i), Arr(a)], st, fuel - 1);
      ForEach(a, cb, thisArg, i, st, fuel) == if o.IsFailure() then o else ForEach(a, cb, thisArg, i + 1, o.st, fuel - 1)
  {
  }

  /** An evaluation that completed normally in state `st`. */
  predicate Completes(r: Res, st: State) {
    r.Ok? && r.c.Normal? && r.st == st
  }

  /**
   * `forEach` called the callback with `(element, index, array)` on the
   * indices `i`, `i + 1`, ... in order, below the array's length at each
   * call, each call in the state the previous one left.
   */
  ghost predicate EachCalled(a: nat, cb: nat, thisArg: Value, i: nat, sts: seq<State>, fuel: nat)
    decreases |sts|
  {
    && 0 < |sts| <= fuel
    && (|sts| > 1 ==>
          && i < ArrayLen(sts[0], a)
          && Completes(Apply(cb, thisArg, [ArrayAt(sts[0], a, i), Int(i), Arr(a)], sts[0], fuel - 1), sts[1])
          && EachCalled(a, cb, thisArg, i + 1, sts[1..], fuel - 1))
  }

  /** The calls a completed `forEach` loop made. */
  lemma {:induction false} ForEachTrace(a: nat, cb: nat, thisArg: Value, i: nat, st: State, fuel: nat) returns (sts: seq<State>)
    ensures var r := ForEach(a, cb, thisArg, i, st, fuel);
      r.Ok? && r.c.Normal? ==>
        && EachCalled(a, cb, thisArg, i, sts, fuel) && sts[0] == st && sts[|sts| - 1] == r.st
        && r.c.value == Undefined && i + |sts| - 1 >= ArrayLen(r.st, a)
    decreases fuel
  {
    sts := [st];
    var r := ForEach(a, cb, thisArg, i, st, fuel);
    if fuel == 0 || !(r.Ok? && r.c.Normal?) {
      return;
    }
    ForEachStep(a, cb, thisArg, i, st, fuel);
    if i < ArrayLen(st, a) {
      var o := Apply(cb, thisArg, [ArrayAt(st, a, i), Int(i), Arr(a)], st, fuel - 1);
      assert ForEach(a, cb, thisArg, i + 1, o.st, fuel - 1) == r;
      var rest := ForEachTrace(a, cb, thisArg, i + 1, o.st, fuel - 1);
      sts := [st] + rest;
      assert sts[1..] == rest;
      assert sts[|sts| - 1] == rest[|rest| - 1];
    }
  }

  /** A `forEach` loop that completes called the callback once per index from `i` on, in order, until the array was exhausted. */
  lemma ForEachInOrder(a: nat, cb: nat, thisArg: Value, i: nat, st: State, fuel: nat)
    ensures var r := ForEach(a, cb, thisArg, i, st, fuel);
      r.Ok? && r.c.Normal? ==>
        exists sts: seq<State> ::
          && EachCalled(a, cb, thisArg, i, sts, fuel) && sts[0] == st && sts[|sts| - 1] == r.st
          && i + |sts| - 1 >= ArrayLen(r.st, a)
  {
    var sts := ForEachTrace(a, cb, thisArg, i, st, fuel);
  }

  // ---------------------------------------------------------------------
  // Assignment

  /** An assignment to a name follows the rule of names. */
  lemma AssignToName(op: string, left: Node, right: Node, scope: nat, st: State, fuel: nat)
    requires fuel > 0 && left.Identifier?
    ensures ExecAssign(op, left, right, scope, st, fuel) == AssignName(op, left.name, right, scope, st, fuel - 1)
  {
  }

  /** An assignment to `o[k]` evaluates the object, then the key, then assigns to that member; a throw from either propagates. */
  lemma AssignToMember(op: string, left: Node, right: Node, scope: nat, st: State, fuel: nat)
    requires fuel > 0 && left.MemberExpression?
    ensures var ob := Exec(left.obj, scope, st, fuel - 1);
      var r := ExecAssign(op, left, right, scope, st, fuel);
      && (ob.IsFailure() ==> r == ob)
      && (!ob.IsFailure() ==>
            var k := MemberKey(left.property, left.computed, scope, ob.st, fuel - 1);
            r == if k.IsFailure() then k else AssignMember(op, ob.c.value, k.c.value, right, scope, k.st, fuel - 1))
  {
  }

  /** An assignment to a pattern evaluates the right-hand side, binds it by the pattern and yields it. */
  lemma AssignToPattern(op: string, left: Node, right: Node, scope: nat, st: State, fuel: nat)
    requires fuel > 0 && !left.Identifier? && !left.MemberExpression?
    ensures var v := Exec(right, scope, st, fuel - 1);
      var r := ExecAssign(op, left, right, scope, st, fuel);
      && (v.IsFailure() ==> r == v)
      && (!v.IsFailure() ==>
            var b := BindPattern(left, v.c.value, scope, v.st, fuel - 1);
            r == if b.IsFailure() then b else Ok(Normal(v.c.value), b.st))
  {
  }

  /**
   * `x op= e` reads `x` (undefined when nothing binds it) before evaluating
   * `e`; a throw from `e` propagates, and a value the operator computes from
   * the two is written to the frame that owns `x`.
   */
  lemma CompoundAssignName(op: string, x: string, right: Node, scope: nat, st: State, fuel: nat)
    requires fuel > 0 && op != "="
    ensures var rhs := Exec(right, scope, st, fuel - 1);
      var r := AssignName(op, x, right, scope, st, fuel);
      && (rhs.IsFailure() ==> r == rhs)
      && (!rhs.IsFailure() && !RootInherits(st.frames, scope, x) ==>
            var step := CompoundStep(op, LookupOr(st.frames, scope, x), rhs.c.value);
            step.Write? ==> r == Ok(Normal(step.v), rhs.st.(frames := SetVar(rhs.st.frames, scope, x, step.v))))
  {
  }

  /** `x op= e` when the operator keeps the current value (a non-nullish `??=`) or is outside the table. */
  lemma CompoundAssignNameOther(op: string, x: string, right: Node, scope: nat, st: State, fuel: nat)
    requires fuel > 0 && op != "="
    ensures var curr := LookupOr(st.frames, scope, x);
      var rhs := Exec(right, scope, st, fuel - 1);
      var r := AssignName(op, x, right, scope, st, fuel);
      !rhs.IsFailure() && !RootInherits(st.frames, scope, x) ==>
        var step := CompoundStep(op, curr, rhs.c.value);
        && (step.KeepCurrent? ==> r == Ok(Normal(curr), rhs.st))
        && (step.UnsupportedAssign? ==> r == Ok(Threw(Exn(Error("Unsupported assignment operator: " + op))), rhs.st))
  {
  }

  /** `o[k] = e` evaluates `e`, then stores it. */
  lemma AssignMemberPlain(obj: Value, key: Value, right: Node, scope: nat, st: State, fuel: nat)
    requires fuel > 0
    ensures var v := Exec(right, scope, st, fuel - 1);
      AssignMember("=", obj, key, right, scope, st, fuel) == if v.IsFailure() then v else StoreProp(obj, key, v.c.value, v.st)
  {
  }

  /** `o[k] op= e` on a null or undefined object throws the TypeError of reading `k` off it, before `e` is evaluated. */
  lemma AssignMemberOfNullish(op: string, obj: Value, key: Value, right: Node, scope: nat, st: State, fuel: nat)
    requires fuel > 0 && op != "=" && Nullish(obj) && ToStr(key).Some?
    ensures AssignMember(op, obj, key, right, scope, st, fuel)
      == Ok(Threw(Exn(TypeError("Cannot read properties of " + ToStr(obj).value + " (reading '" + ToStr(key).value + "')"))), st)
  {
  }

  /**
   * `o[k] op= e` reads `o[k]` before evaluating `e`; a throw from `e`
   * propagates, and a value the operator computes from the two is stored.
   */
  lemma AssignMemberCompound(op: string, obj: Value, key: Value, right: Node, scope: nat, st: State, fuel: nat)
    requires fuel > 0 && op != "=" && !Nullish(obj) && GetProp(st, obj, key).Some?
    ensures var rhs := Exec(right, scope, st, fuel - 1);
      var r := AssignMember(op, obj, key, right, scope, st, fuel);
      && (rhs.IsFailure() ==> r == rhs)
      && (!rhs.IsFailure() ==>
            var step := CompoundStep(op, GetProp(st, obj, key).value, rhs.c.value);
            step.Write? ==> r == StoreProp(obj, key, step.v, rhs.st))
  {
  }

  /** `o[k] op= e` when the operator keeps the current value (a non-nullish `??=`) or is outside the table. */
  lemma AssignMemberCompoundOther(op: string, obj: Value, key: Value, right: Node, scope: nat, st: State, fuel: nat)
    requires fuel > 0 && op != "=" && !Nullish(obj) && GetProp(st, obj, key).Some?
    ensures var curr := GetProp(st, obj, key).value;
      var rhs := Exec(right, scope, st, fuel - 1);
      var r := AssignMember(op, obj, key, right, scope, st, fuel);
      !rhs.IsFailure() ==>
        var step := CompoundStep(op, curr, rhs.c.value);
        && (step.KeepCurrent? ==> r == Ok(Normal(curr), rhs.st))
        && (step.UnsupportedAssign? ==> r == Ok(Threw(Exn(Error("Unsupported assignment operator: " + op))), rhs.st))
  {
  }

  /** Storing into a record writes the field, which then reads back as the value stored; the value is the result. */
  lemma StoreIntoRecord(id: nat, key: Value, v: Value, st: State)
    requires id < |st.objects| && ToStr(key).Some? && ToStr(key).value != "__proto__"
    ensures var r := StoreProp(Rec(id), key, v, st);
      var k := ToStr(key).value;
      && r == Ok(Normal(v), st.(objects := st.objects[id := st.objects[id].(fields := st.objects[id].fields[k := v])]))
      && RecordGet(r.st.objects, id, k) == Some(v)
  {
  }

  /** `__proto__` on a record runs the setter every object inherits; the model leaves it to the host and stores nothing. */
  lemma StoreIntoRecordProto(id: nat, key: Value, v: Value, st: State)
    requires ToStr(key) == Some("__proto__")
    ensures StoreProp(Rec(id), key, v, st) == Stuck("host property write")
  {
  }

  /**
   * Storing onto a class writes a field of its statics record, except for
   * the keys the class function does not take as plain own fields
   * (read-only, accessor or setter), which are left to the host.
   */
  lemma StoreIntoClass(f: nat, key: Value, v: Value, st: State)
    requires f < |st.callables| && st.callables[f].ClassFn? && st.callables[f].statics < |st.objects| && ToStr(key).Some?
    ensures var r := StoreProp(Closure(f), key, v, st);
      var k := ToStr(key).value;
      var o := st.callables[f].statics;
      && (Blocked(true, k) ==> r == Stuck("host property write"))
      && (!Blocked(true, k) ==>
            && r == Ok(Normal(v), st.(objects := st.objects[o := st.objects[o].(fields := st.objects[o].fields[k := v])]))
            && RecordGet(r.st.objects, o, k) == Some(v))
  {
  }

  /** Storing at an index of an array replaces that element, and storing one past the end appends. */
  lemma StoreIntoArray(a: nat, key: Value, v: Value, st: State)
    requires a < |st.arrays| && IndexKey(key).Some? && IndexKey(key).value <= |st.arrays[a]|
    ensures var r := StoreProp(Arr(a), key, v, st);
      var n := IndexKey(key).value;
      && r.Ok? && r.c == Normal(v) && r.st.frames == st.frames && r.st.objects == st.objects
      && (n < |st.arrays[a]| ==> r.st.arrays == st.arrays[a := st.arrays[a][n := v]])
      && (n == |st.arrays[a]| ==> r.st.arrays == st.arrays[a := st.arrays[a] + [v]])
      && ArrayAt(r.st, a, n) == v
  {
  }

  /** Storing into null or undefined throws the engine's TypeError naming the key, and changes nothing. */
  lemma StoreIntoNullish(base: Value, key: Value, v: Value, st: State)
    requires Nullish(base) && ToStr(key).Some?
    ensures StoreProp(base, key, v, st)
      == Ok(Threw(Exn(TypeError("Cannot set properties of " + ToStr(base).value + " (setting '" + ToStr(key).value + "')"))), st)
  {
  }

  /** Storing into a boolean, a number or a string (strict mode) throws a TypeError and changes nothing. */
  lemma StoreIntoPrimitive(base: Value, key: Value, v: Value, st: State)
    requires (base.Bool? || base.Int? || base.Str?) && ToStr(key).Some?
    ensures var r := StoreProp(base, key, v, st);
      r.Ok? && r.c.Threw? && r.c.thrown.Exn? && r.c.thrown.exn.TypeError? && r.st == st
  {
  }

  // ---------------------------------------------------------------------
  // Patterns

  /** A name pattern binds the name in the frame that owns it (the current frame when none does). */
  lemma BindName(x: string, v: Value, scope: nat, st: State, fuel: nat)
    requires fuel > 0 && !RootInherits(st.frames, scope, x)
    ensures BindPattern(Identifier(x), v, scope, st, fuel)
      == Ok(Normal(Undefined), st.(frames := SetVar(st.frames, scope, x, v)))
  {
  }

  /** An array pattern binds its elements from position 0; a null or undefined source is treated as a new empty array. */
  lemma ArrayPatternSource(es: seq<Node>, v: Value, scope: nat, st: State, fuel: nat)
    requires fuel > 0
    ensures BindPattern(ArrayPattern(es), v, scope, st, fuel)
      == if Nullish(v) then BindElems(es, 0, Arr(|st.arrays|), scope, st.(arrays := st.arrays + [[]]), fuel - 1)
         else BindElems(es, 0, v, scope, st, fuel - 1)
  {
  }

  /**
   * An object pattern binds its properties, collecting the keys they pick; a
   * null or undefined source is treated as a new empty record.  Without a
   * rest element the pattern is done; otherwise its target is bound to a new
   * record, with no prototype, holding the source's own entries that were
   * not picked.
   */
  lemma ObjectPatternSource(ps: seq<Node>, v: Value, scope: nat, st: State, fuel: nat)
    requires fuel > 0
    ensures var st1 := if Nullish(v) then st.(objects := st.objects + [Obj(map[], None)]) else st;
      var src := if Nullish(v) then Rec(|st.objects|) else v;
      var g := BindProps(ps, src, {}, scope, st1, fuel - 1);
      var r := BindPattern(ObjectPattern(ps), v, scope, st, fuel);
      && (g.Fail? ==> r == g.r)
      && (g.Done? && FirstRest(ps).None? ==> r == Ok(Normal(Undefined), g.st))
      && (g.Done? && FirstRest(ps).Some? ==>
            r == BindPattern(FirstRest(ps).value, Rec(|g.st.objects|), scope,
                   g.st.(objects := g.st.objects + [Obj(RestOf(OwnEntries(g.st, src), g.val), None)]), fuel - 1))
  {
  }

  /**
   * The elements of an array pattern, from position `i`: a hole is skipped,
   * a rest element binds what is left and ends the pattern, and any other
   * element is bound before the next one, in the state it left.
   */
  lemma BindElemsStep(es: seq<Node>, i: nat, src: Value, scope: nat, st: State, fuel: nat)
    requires fuel > 0
    ensures var r := BindElems(es, i, src, scope, st, fuel);
      && (i >= |es| ==> r == Ok(Normal(Undefined), st))
      && (i < |es| && es[i].Empty? ==> r == BindElems(es, i + 1, src, scope, st, fuel - 1))
      && (i < |es| && es[i].RestElement? ==> r == BindRest(es[i].argument, i, src, scope, st, fuel - 1))
      && (i < |es| && !es[i].Empty? && !es[i].RestElement? ==>
            var b := BindElem(es[i], i, src, scope, st, fuel - 1);
            r == if b.IsFailure() then b else BindElems(es, i + 1, src, scope, b.st, fuel - 1))
  {
  }

  /** A rest element at position `i` binds `src.slice(i)`: a new array for an array, a suffix for a string. */
  lemma BindRestSlice(target: Node, i: nat, src: Value, scope: nat, st: State, fuel: nat)
    requires fuel > 0
    ensures src.Arr? && src.arr < |st.arrays| && i <= |st.arrays[src.arr]| ==>
      BindRest(target, i, src, scope, st, fuel)
        == BindPattern(target, Arr(|st.arrays|), scope, st.(arrays := st.arrays + [st.arrays[src.arr][i..]]), fuel - 1)
    ensures src.Str? && i <= |src.s| ==>
      BindRest(target, i, src, scope, st, fuel) == BindPattern(target, Str(src.s[i..]), scope, st, fuel - 1)
  {
  }

  /** A rest element over a value with no `slice` method throws a TypeError. */
  lemma BindRestNoSlice(target: Node, i: nat, src: Value, scope: nat, st: State, fuel: nat)
    requires fuel > 0 && !src.Arr? && !src.Str? && !src.Rec? && !src.Closure?
    ensures BindRest(target, i, src, scope, st, fuel) == Ok(Threw(Exn(TypeError("arr.slice is not a function"))), st)
  {
  }

  /** An element with a default whose value at `i` is undefined evaluates the default and binds its value. */
  lemma BindElemDefault(el: Node, i: nat, src: Value, scope: nat, st: State, fuel: nat)
    requires fuel > 0 && el.AssignmentPattern? && ElemAt(st, src, i) == Undefined
    ensures var d := Exec(el.right, scope, st, fuel - 1);
      BindElem(el, i, src, scope, st, fuel) == if d.IsFailure() then d else BindPattern(el.left, d.c.value, scope, d.st, fuel - 1)
  {
  }

  /** An element whose value at `i` is not undefined is bound to it; a default is not evaluated. */
  lemma BindElemPresent(el: Node, i: nat, src: Value, scope: nat, st: State, fuel: nat)
    requires fuel > 0 && ElemAt(st, src, i) != Undefined
    ensures BindElem(el, i, src, scope, st, fuel)
      == BindPattern(if el.AssignmentPattern? then el.left else el, ElemAt(st, src, i), scope, st, fuel - 1)
  {
  }

  /** The properties of an object pattern, in order: each property adds its key to those picked; other entries are skipped. */
  lemma BindPropsStep(ps: seq<Node>, src: Value, picked: set<Value>, scope: nat, st: State, fuel: nat)
    requires fuel > 0 && !Nullish(src)
    ensures var r := BindProps(ps, src, picked, scope, st, fuel);
      && (ps == [] ==> r == Done(picked, st))
      && (ps != [] && !ps[0].Property? ==> r == BindProps(ps[1..], src, picked, scope, st, fuel - 1))
      && (ps != [] && ps[0].Property? ==>
            var k := BindProp(ps[0].key, ps[0].value, src, scope, st, fuel - 1);
            r == if k.Fail? then Fail(k.r) else BindProps(ps[1..], src, picked + {k.val.value}, scope, k.st, fuel - 1))
  {
  }

  /** The key of a property is its identifier's name, or the value of the key expression; a throw from it ends the pattern. */
  lemma BindPropKey(key: Node, target: Node, src: Value, scope: nat, st: State, fuel: nat)
    requires fuel > 0 && !Nullish(src)
    ensures var ko := if key.Identifier? then Ok(Normal(Str(key.name)), st) else Exec(key, scope, st, fuel - 1);
      ko.IsFailure() ==> BindProp(key, target, src, scope, st, fuel) == Fail(ko)
  {
  }

  /** A property with a default whose value is undefined evaluates the default and binds its value. */
  lemma BindPropDefault(key: Node, target: Node, src: Value, scope: nat, st: State, fuel: nat)
    requires fuel > 0 && !Nullish(src) && target.AssignmentPattern?
    ensures var ko := if key.Identifier? then Ok(Normal(Str(key.name)), st) else Exec(key, scope, st, fuel - 1);
      !ko.IsFailure() && GetProp(ko.st, src, ko.c.value) == Some(Undefined) ==>
        var d := Exec(target.right, scope, ko.st, fuel - 1);
        var r := BindProp(key, target, src, scope, st, fuel);
        && (d.IsFailure() ==> r == Fail(d))
        && (!d.IsFailure() ==>
              var b := BindPattern(target.left, d.c.value, scope, d.st, fuel - 1);
              r == if b.IsFailure() then Fail(b) else Done(Some(ko.c.value), b.st))
  {
  }

  /** A property whose value is not undefined, or that has no default, binds the value read; a default is not evaluated. */
  lemma BindPropValue(key: Node, target: Node, src: Value, scope: nat, st: State, fuel: nat)
    requires fuel > 0 && !Nullish(src)
    ensures var ko := if key.Identifier? then Ok(Normal(Str(key.name)), st) else Exec(key, scope, st, fuel - 1);
      !ko.IsFailure() ==>
        var got := GetProp(ko.st, src, ko.c.value);
        got.Some? && !(target.AssignmentPattern? && got.value == Undefined) ==>
          var b := BindPattern(if target.AssignmentPattern? then target.left else target, got.value, scope, ko.st, fuel - 1);
          BindProp(key, target, src, scope, st, fuel) == if b.IsFailure() then Fail(b) else Done(Some(ko.c.value), b.st)
  {
  }
}
