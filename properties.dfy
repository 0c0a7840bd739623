/**
 * Properties of the evaluator as a whole: name resolution and assignment,
 * short-circuiting, the loops and `try` and how they treat the control
 * signals, calls and `return`, classes, and the array combinators.
 *
 * Each lemma is stated for enough fuel to take the steps it describes; with
 * less, evaluation is `Stuck` and there is nothing to say.
 */
module Properties {
  import opened Wrappers
  import opened Values
  import opened Ast
  import opened Operators
  import opened Frames
  import opened Store
  import opened Combinators
  import opened Interp
  import Rules

  // ---------------------------------------------------------------------
  // Names

  /**
   * Reading `x` yields the binding of the innermost frame on the chain that
   * has one, changes nothing, and throws a ReferenceError exactly when no
   * frame on the chain binds `x`, unless `x` is then a member the root scope
   * inherits from Object.prototype, which the model does not represent.
   */
  lemma IdentifierRead(x: string, scope: nat, st: State, fuel: nat)
    requires fuel > 0
    ensures var r := Exec(Identifier(x), scope, st, fuel);
      var ch := Chain(st.frames, scope);
      && (r.Stuck? <==> RootInherits(st.frames, scope, x))
      && (r.Ok? ==> r.st == st)
      && (r.Ok? ==> (r.c.Normal? <==> exists k :: 0 <= k < |ch| && x in st.frames[ch[k]].vars))
      && (r.Ok? && r.c.Normal? ==>
            exists k :: 0 <= k < |ch| && x in st.frames[ch[k]].vars
              && r.c.value == st.frames[ch[k]].vars[x] && forall j :: 0 <= j < k ==> x !in st.frames[ch[j]].vars)
      && (r.Ok? && r.c.Threw? ==> r.c.thrown == Exn(ReferenceError("Variabile non definita: " + x)))
  {
    LookupInnermost(st.frames, scope, x);
  }

  /**
   * `x = e`: the value of `e` is the result; afterwards `x` reads as that
   * value from the current frame and every other name reads as it did.  A
   * failure of `e` is the outcome and nothing is written.  A write to a
   * name the root scope inherits from Object.prototype is not modelled.
   */
  lemma AssignNameEffect(x: string, right: Node, scope: nat, st: State, fuel: nat)
    requires fuel > 0 && scope < |st.frames|
    ensures var r := AssignName("=", x, right, scope, st, fuel);
      var o := Exec(right, scope, st, fuel - 1);
      && (o.IsFailure() ==> r == o)
      && (!o.IsFailure() ==> (r.Stuck? <==> RootInherits(o.st.frames, scope, x)))
      && (!o.IsFailure() && !RootInherits(o.st.frames, scope, x) ==>
            && r.Ok? && r.c == Normal(o.c.value)
            && Lookup(r.st.frames, scope, x) == Some(o.c.value)
            && forall y, j: nat :: y != x ==> Lookup(r.st.frames, j, y) == Lookup(o.st.frames, j, y))
  {
    var o := Exec(right, scope, st, fuel - 1);
    if !o.IsFailure() && !RootInherits(o.st.frames, scope, x) {
      SetVarEffect(o.st.frames, scope, x, o.c.value);
    }
  }

  /**
   * `x ??= e` when `x` holds a value that is neither null nor undefined: the
   * right-hand side is still evaluated (its effects happen), but the result
   * is the current value and nothing is written.
   */
  lemma NullishAssignKeeps(x: string, right: Node, scope: nat, st: State, fuel: nat)
    requires fuel > 0
    requires Lookup(st.frames, scope, x).Some? && !Nullish(Lookup(st.frames, scope, x).value)
    ensures var r := AssignName("??=", x, right, scope, st, fuel);
      var o := Exec(right, scope, st, fuel - 1);
      && (o.IsFailure() ==> r == o)
      && (!o.IsFailure() ==> r == Ok(Normal(Lookup(st.frames, scope, x).value), o.st))
  {
  }

  /**
   * `x += e` and the other arithmetic compound assignments read `x` before
   * evaluating `e`: when `e` itself reassigns `x`, the old value is used.
   */
  lemma CompoundReadsFirst(x: string, right: Node, scope: nat, st: State, fuel: nat)
    requires fuel > 0 && scope < |st.frames|
    requires Lookup(st.frames, scope, x) == Some(Int(1))
    requires Exec(right, scope, st, fuel - 1) == Ok(Normal(Int(10)), st.(frames := SetVar(st.frames, scope, x, Int(100))))
    ensures var r := AssignName("+=", x, right, scope, st, fuel);
      r.Ok? && r.c == Normal(Int(11)) && Lookup(r.st.frames, scope, x) == Some(Int(11))
  {
    var fs1 := SetVar(st.frames, scope, x, Int(100));
    SetVarEffect(st.frames, scope, x, Int(100));
    SetVarEffect(fs1, scope, x, Int(11));
  }

  /**
   * The logical operators evaluate the right operand only when the left one
   * does not decide: `&&` on a falsy, `||` on a truthy and `??` on a
   * non-nullish left operand yield it unchanged.
   */
  lemma LogicalShortCircuit(op: string, left: Node, right: Node, scope: nat, st: State, fuel: nat)
    requires fuel > 0 && op in {"&&", "||", "??"}
    ensures var r := ExecLogical(op, left, right, scope, st, fuel);
      var l := Exec(left, scope, st, fuel - 1);
      && (l.IsFailure() ==> r == l)
      && (!l.IsFailure() ==>
            var decided := (op == "&&" && !Truthy(l.c.value)) || (op == "||" && Truthy(l.c.value)) || (op == "??" && !Nullish(l.c.value));
            r == if decided then Ok(Normal(l.c.value), l.st) else Exec(right, scope, l.st, fuel - 1))
  {
  }

  // ---------------------------------------------------------------------
  // The update expression

  /**
   * As written, `n++` on a name bound in an enclosing frame leaves that
   * binding as it was and binds the new value in the current frame: the
   * enclosing frame still reads 0 after the update.
   */
  lemma UpdateAsWrittenShadows()
    ensures var st := State([Frame(map["n" := Int(0)], None), Frame(map[], Some(0))], [], [], []);
      var r := UpdateStepAsWritten("++", false, Identifier("n"), 1, st);
      && r.Ok? && r.c == Normal(Int(0))
      && Lookup(r.st.frames, 1, "n") == Some(Int(1))
      && Lookup(r.st.frames, 0, "n") == Some(Int(0))
  {
    var st := State([Frame(map["n" := Int(0)], None), Frame(map[], Some(0))], [], [], []);
    assert Lookup(st.frames, 1, "n") == Some(Int(0));
  }

  /**
   * As written, the three patterns that need `exec` each raise the
   * ReferenceError and bind nothing: `const [x = 1] = []`,
   * `const {a = 1} = {}` and `const {"a": y} = {a: 2}`.
   */
  lemma PatternsAsWrittenCannotEvaluate()
    ensures var st := State([Frame(map[], None)], [[]], [Obj(map[], None), Obj(map["a" := Int(2)], None)], []);
      && BindPatternAsWritten(ArrayPattern([AssignmentPattern(Identifier("x"), Literal(LNum(1)))]), Arr(0), 0, st)
           == Ok(Threw(Exn(ExecUnbound)), st)
      && BindPatternAsWritten(ObjectPattern([Property(Identifier("a"), AssignmentPattern(Identifier("a"), Literal(LNum(1))))]), Rec(0), 0, st)
           == Ok(Threw(Exn(ExecUnbound)), st)
      && BindPatternAsWritten(ObjectPattern([Property(Literal(LStr("a")), Identifier("y"))]), Rec(1), 0, st)
           == Ok(Threw(Exn(ExecUnbound)), st)
  {
  }

  /** Corrected, `const [x = 1] = []` evaluates the default and binds `x` to 1 in the current frame. */
  lemma PatternDefaultCorrected(fuel: nat)
    requires fuel >= 4
    ensures var st := State([Frame(map[], None)], [[]], [], []);
      BindPattern(ArrayPattern([AssignmentPattern(Identifier("x"), Literal(LNum(1)))]), Arr(0), 0, st, fuel)
        == Ok(Normal(Undefined), st.(frames := [Frame(map["x" := Int(1)], None)]))
  {
    var st := State([Frame(map[], None)], [[]], [], []);
    var es := [AssignmentPattern(Identifier("x"), Literal(LNum(1)))];
    Rules.ArrayPatternSource(es, Arr(0), 0, st, fuel);
    Rules.BindElemsStep(es, 0, Arr(0), 0, st, fuel - 1);
    assert ElemAt(st, Arr(0), 0) == Undefined;
    Rules.BindElemDefault(es[0], 0, Arr(0), 0, st, fuel - 2);
    Rules.LiteralValue(LNum(1), 0, st, fuel - 3);
    assert Lookup(st.frames, 0, "x").None?;
    Rules.BindName("x", Int(1), 0, st, fuel - 3);
    SetVarUnownedWritesCurrent(st.frames, 0, "x", Int(1));
    var st' := st.(frames := [Frame(map["x" := Int(1)], None)]);
    assert SetVar(st.frames, 0, "x", Int(1)) == st'.frames;
    Rules.BindElemsStep(es, 1, Arr(0), 0, st', fuel - 2);
  }

  /** With the write going to the owner, the same update is seen from the enclosing frame. */
  lemma UpdateReachesOwner()
    ensures var st := State([Frame(map["n" := Int(0)], None), Frame(map[], Some(0))], [], [], []);
      var r := UpdateStep("++", false, Identifier("n"), 1, st);
      && r.Ok? && r.c == Normal(Int(0))
      && Lookup(r.st.frames, 1, "n") == Some(Int(1))
      && Lookup(r.st.frames, 0, "n") == Some(Int(1))
  {
    var st := State([Frame(map["n" := Int(0)], None), Frame(map[], Some(0))], [], [], []);
    assert Lookup(st.frames, 1, "n") == Some(Int(0));
    assert Owner(st.frames, 1, "n") == Some(0);
  }

  // ---------------------------------------------------------------------
  // Loops and the control signals

  /** The source's own reading of a flag: the truthiness of the property `e[k]`. */
  function PropertyFlag(st: State, e: Value, k: string): Option<bool>
    requires !Nullish(e)
  {
    match GetProp(st, e, Str(k))
    case Some(v) => Some(Truthy(v))
    case None => None
  }

  /** On a return signal, `Flag` agrees with reading the property. */
  lemma FlagReadsReturnSignal(st: State, v: Value, f: FlagName)
    ensures Flag(st, Exn(ReturnSignal(v)), f) == PropertyFlag(st, Exn(ReturnSignal(v)), f.Key())
    ensures Flag(st, Exn(ReturnSignal(v)), f) == Some(f == ReturnFlag)
  {
    match f
    case ReturnFlag =>
    case BreakFlag =>
      assert !ObjectProtoName("__break");
    case ContinueFlag =>
      assert !ObjectProtoName("__continue");
  }

  /** On a break signal, `Flag` agrees with reading the property. */
  lemma FlagReadsBreakSignal(st: State, f: FlagName)
    ensures Flag(st, Exn(BreakSignal), f) == PropertyFlag(st, Exn(BreakSignal), f.Key())
    ensures Flag(st, Exn(BreakSignal), f) == Some(f == BreakFlag)
  {
    match f
    case ReturnFlag =>
      assert !ObjectProtoName("__return");
    case BreakFlag =>
    case ContinueFlag =>
      assert !ObjectProtoName("__continue");
  }

  /** On a continue signal, `Flag` agrees with reading the property. */
  lemma FlagReadsContinueSignal(st: State, f: FlagName)
    ensures Flag(st, Exn(ContinueSignal), f) == PropertyFlag(st, Exn(ContinueSignal), f.Key())
    ensures Flag(st, Exn(ContinueSignal), f) == Some(f == ContinueFlag)
  {
    match f
    case ReturnFlag =>
      assert !ObjectProtoName("__return");
    case BreakFlag =>
      assert !ObjectProtoName("__break");
    case ContinueFlag =>
  }

  /** On a genuine error, `Flag` agrees with reading the property: none of the flags is set. */
  lemma FlagReadsError(st: State, e: Exception, f: FlagName)
    requires e.Error? || e.TypeError? || e.ReferenceError?
    ensures Flag(st, Exn(e), f) == PropertyFlag(st, Exn(e), f.Key())
    ensures Flag(st, Exn(e), f) == Some(false)
  {
    match f
    case ReturnFlag =>
      assert !ObjectProtoName("__return");
    case BreakFlag =>
      assert !ObjectProtoName("__break");
    case ContinueFlag =>
      assert !ObjectProtoName("__continue");
  }

  /** The value a return signal carries is its `value` property. */
  lemma ReturnedReadsProperty(st: State, v: Value)
    ensures Returned(st, Exn(ReturnSignal(v))) == GetProp(st, Exn(ReturnSignal(v)), Str("value"))
    ensures Returned(st, Exn(ReturnSignal(v))) == Some(v)
  {
  }

  /**
   * `while` catches nothing: once the test holds, anything the body throws
   * (a break or continue signal included) ends the loop and propagates.
   */
  lemma WhileBodyThrowEscapes(t: Node, body: Node, scope: nat, st: State, fuel: nat)
    requires fuel > 0
    ensures var o := Exec(t, scope, st, fuel - 1);
      !o.IsFailure() && Truthy(o.c.value) ==>
        var b := Exec(body, scope, o.st, fuel - 1);
        b.Ok? && b.c.Threw? ==> WhileLoop(t, body, scope, st, fuel) == b
  {
  }

  /** A falsy test ends `while` with undefined, the state as the test left it. */
  lemma WhileFalsyTestEnds(t: Node, body: Node, scope: nat, st: State, fuel: nat)
    requires fuel > 0
    ensures var o := Exec(t, scope, st, fuel - 1);
      !o.IsFailure() && !Truthy(o.c.value) ==> WhileLoop(t, body, scope, st, fuel) == Ok(Normal(Undefined), o.st)
  {
  }

  /** A break signal thrown by the body of `for` ends the loop with undefined. */
  lemma ForBreakEnds(t: Node, u: Node, body: Node, scope: nat, st: State, fuel: nat)
    requires fuel > 0
    ensures var o := Exec(t, scope, st, fuel - 1);
      !o.IsFailure() && Truthy(o.c.value) ==>
        var b := Exec(body, scope, o.st, fuel - 1);
        b.Ok? && b.c == Threw(Exn(BreakSignal)) ==> ForLoop(t, u, body, scope, st, fuel) == Ok(Normal(Undefined), b.st)
  {
  }

  /**
   * `for` catches only the break signal: any other exception value thrown by
   * the body (a continue or return signal included) escapes the loop,
   * skipping the update.
   */
  lemma ForOtherSignalsEscape(t: Node, u: Node, body: Node, scope: nat, st: State, fuel: nat, x: Exception)
    requires fuel > 0 && !x.BreakSignal?
    ensures var o := Exec(t, scope, st, fuel - 1);
      !o.IsFailure() && Truthy(o.c.value) ==>
        var b := Exec(body, scope, o.st, fuel - 1);
        b.Ok? && b.c == Threw(Exn(x)) ==> ForLoop(t, u, body, scope, st, fuel) == b
  {
  }

  /**
   * Whatever the body of `for` throws (an exception value or a record the
   * block re-throws), the loop ends with undefined when the thrown value's
   * `__break` is truthy, and lets it escape, skipping the update, when it
   * is falsy.
   */
  lemma ForCatchesByBreakFlag(t: Node, u: Node, body: Node, scope: nat, st: State, fuel: nat)
    requires fuel > 0
    ensures var o := Exec(t, scope, st, fuel - 1);
      !o.IsFailure() && Truthy(o.c.value) ==>
        var b := Exec(body, scope, o.st, fuel - 1);
        b.Ok? && b.c.Threw? ==>
          && (Flag(b.st, b.c.thrown, BreakFlag) == Some(true) ==> ForLoop(t, u, body, scope, st, fuel) == Ok(Normal(Undefined), b.st))
          && (Flag(b.st, b.c.thrown, BreakFlag) == Some(false) ==> ForLoop(t, u, body, scope, st, fuel) == b)
  {
  }

  /** After a body that completes, `for` runs the update and then the next iteration. */
  lemma ForNormalBodyContinues(t: Node, u: Node, body: Node, scope: nat, st: State, fuel: nat)
    requires fuel > 0
    ensures var o := Exec(t, scope, st, fuel - 1);
      !o.IsFailure() && Truthy(o.c.value) ==>
        var b := Exec(body, scope, o.st, fuel - 1);
        b.Ok? && b.c.Normal? ==>
          var ou := Exec(u, scope, b.st, fuel - 1);
          ForLoop(t, u, body, scope, st, fuel) == if ou.IsFailure() then ou else ForLoop(t, u, body, scope, ou.st, fuel - 1)
  {
  }

  /** The state in which `for...of` runs its body for element `el`: a new frame, child of `scope`, binding only the loop variable. */
  function IterationState(st: State, scope: nat, x: string, el: Value): State {
    st.(frames := st.frames + [Frame(map[x := el], Some(scope))])
  }

  /**
   * One step of `for...of` on element `i`: the body runs in a new frame,
   * child of `scope`, whose only binding is the loop variable; when it
   * completes, the loop moves on to element `i + 1`.
   */
  lemma ForOfStepNormal(left: Node, coll: Value, i: nat, body: Node, scope: nat, st: State, fuel: nat)
    requires fuel > 0
    requires IterAt(st, coll, i).Some? && ForOfName(left).Some?
    requires !(left.VariableDeclaration? && left.declarations == [])
    ensures var b := Exec(body, |st.frames|, IterationState(st, scope, ForOfName(left).value, IterAt(st, coll, i).value), fuel - 1);
      b.Ok? && b.c.Normal? ==> ForOfLoop(left, coll, i, body, scope, st, fuel) == ForOfLoop(left, coll, i + 1, body, scope, b.st, fuel - 1)
  {
    var (st1, frame) := NewFrame(st, map[], scope);
    assert Declare(st1, frame, ForOfName(left).value, IterAt(st, coll, i).value)
      == IterationState(st, scope, ForOfName(left).value, IterAt(st, coll, i).value);
  }

  /** A continue signal from the body of `for...of` moves on to element `i + 1`. */
  lemma ForOfStepContinue(left: Node, coll: Value, i: nat, body: Node, scope: nat, st: State, fuel: nat)
    requires fuel > 0
    requires IterAt(st, coll, i).Some? && ForOfName(left).Some?
    requires !(left.VariableDeclaration? && left.declarations == [])
    ensures var b := Exec(body, |st.frames|, IterationState(st, scope, ForOfName(left).value, IterAt(st, coll, i).value), fuel - 1);
      b.Ok? && b.c == Threw(Exn(ContinueSignal)) ==> ForOfLoop(left, coll, i, body, scope, st, fuel) == ForOfLoop(left, coll, i + 1, body, scope, b.st, fuel - 1)
  {
    var x := ForOfName(left).value;
    var el := IterAt(st, coll, i).value;
    var (st1, frame) := NewFrame(st, map[], scope);
    assert Declare(st1, frame, x, el) == IterationState(st, scope, x, el);
  }

  /** A break signal from the body of `for...of` ends the loop with undefined. */
  lemma ForOfStepBreak(left: Node, coll: Value, i: nat, body: Node, scope: nat, st: State, fuel: nat)
    requires fuel > 0
    requires IterAt(st, coll, i).Some? && ForOfName(left).Some?
    requires !(left.VariableDeclaration? && left.declarations == [])
    ensures var b := Exec(body, |st.frames|, IterationState(st, scope, ForOfName(left).value, IterAt(st, coll, i).value), fuel - 1);
      b.Ok? && b.c == Threw(Exn(BreakSignal)) ==> ForOfLoop(left, coll, i, body, scope, st, fuel) == Ok(Normal(Undefined), b.st)
  {
    var x := ForOfName(left).value;
    var el := IterAt(st, coll, i).value;
    var (st1, frame) := NewFrame(st, map[], scope);
    assert Declare(st1, frame, x, el) == IterationState(st, scope, x, el);
  }

  /**
   * Any other exception value thrown by the body of `for...of` (a return
   * signal or a genuine error) ends the loop and propagates.
   */
  lemma ForOfStepEscape(left: Node, coll: Value, i: nat, body: Node, scope: nat, st: State, fuel: nat, x: Exception)
    requires !x.BreakSignal? && !x.ContinueSignal?
    requires fuel > 0
    requires IterAt(st, coll, i).Some? && ForOfName(left).Some?
    requires !(left.VariableDeclaration? && left.declarations == [])
    ensures var b := Exec(body, |st.frames|, IterationState(st, scope, ForOfName(left).value, IterAt(st, coll, i).value), fuel - 1);
      b.Ok? && b.c == Threw(Exn(x)) ==> ForOfLoop(left, coll, i, body, scope, st, fuel) == b
  {
    var name := ForOfName(left).value;
    var el := IterAt(st, coll, i).value;
    var (st1, frame) := NewFrame(st, map[], scope);
    assert Declare(st1, frame, name, el) == IterationState(st, scope, name, el);
  }

  /** `for...of` ends with undefined, changing nothing, once element `i` does not exist (the length is read afresh each time). */
  lemma ForOfEnds(left: Node, coll: Value, i: nat, body: Node, scope: nat, st: State, fuel: nat)
    requires fuel > 0 && IterAt(st, coll, i).None?
    ensures ForOfLoop(left, coll, i, body, scope, st, fuel) == Ok(Normal(Undefined), st)
  {
  }

  /**
   * A left-hand side without a loop variable throws only when there is an
   * element to bind: a TypeError for an empty declaration, an Error for
   * anything other than a declaration or an identifier.
   */
  lemma ForOfBadLeft(left: Node, coll: Value, i: nat, body: Node, scope: nat, st: State, fuel: nat)
    requires fuel > 0 && IterAt(st, coll, i).Some?
    requires ForOfName(left).None?
    ensures var r := ForOfLoop(left, coll, i, body, scope, st, fuel);
      && r.Ok? && r.c.Threw?
      && (left.VariableDeclaration? ==> r.c.thrown == Exn(TypeError("Cannot read properties of undefined (reading 'id')")))
      && (!left.VariableDeclaration? ==> r.c.thrown == Exn(Error("Tipo non supportato in ForOfStatement.left")))
  {
  }

  /** `for...of` over a value that is neither an array nor a string throws a TypeError before running the body. */
  lemma ForOfNotIterable(left: Node, right: Node, body: Node, scope: nat, st: State, fuel: nat)
    requires fuel > 0
    ensures var o := Exec(right, scope, st, fuel - 1);
      !o.IsFailure() && !IsIterable(o.c.value) ==>
        ExecForOf(left, right, body, scope, st, fuel) == Ok(Threw(Exn(TypeError("L'oggetto nel for...of non è iterabile"))), o.st)
  {
  }

  // ---------------------------------------------------------------------
  // try

  /**
   * A throw from the block (a control signal included) runs the handler in
   * a new frame, child of `scope`, binding the parameter to the thrown value.
   */
  lemma TryHandlerGetsThrown(b: Node, p: string, hb: Node, scope: nat, st: State, fuel: nat)
    requires fuel > 0 && p != ""
    ensures var o := Exec(b, scope, st, fuel - 1);
      o.Ok? && o.c.Threw? ==>
        ExecTry(b, Some(Catch(Identifier(p), hb)), Empty, scope, st, fuel)
          == Exec(hb, |o.st.frames|, o.st.(frames := o.st.frames + [Frame(map[p := o.c.thrown], Some(scope))]), fuel - 1)
  {
  }

  /** Without a handler, a throw from the block is dropped: `try` completes with undefined. */
  lemma TryWithoutHandlerSwallows(b: Node, scope: nat, st: State, fuel: nat)
    requires fuel > 0
    ensures var o := Exec(b, scope, st, fuel - 1);
      o.Ok? && o.c.Threw? ==> ExecTry(b, None, Empty, scope, st, fuel) == Ok(Normal(Undefined), o.st)
  {
  }

  /**
   * A finalizer runs after a block that completed: its own throw replaces
   * the outcome, otherwise the block's value stands in the state the
   * finalizer left.
   */
  lemma TryFinalizerOutcome(b: Node, h: Option<Catch>, f: Node, scope: nat, st: State, fuel: nat)
    requires fuel > 0 && !f.Empty?
    ensures var o := Exec(b, scope, st, fuel - 1);
      o.Ok? && o.c.Normal? ==>
        var fo := Exec(f, scope, o.st, fuel - 1);
        var r := ExecTry(b, h, f, scope, st, fuel);
        && (fo.Ok? && fo.c.Threw? ==> r == fo)
        && (fo.Ok? && fo.c.Normal? ==> r == Ok(o.c, fo.st))
  {
  }

  // ---------------------------------------------------------------------
  // Calls

  /**
   * A call frame binds the parameters by name, and `this` for arrows (the
   * defining scope's `this`) and methods (the receiver); a plain function's
   * frame binds no `this` of its own.
   */
  lemma CallFrameBindings(st: State, kind: FunKind, ps: seq<Node>, env: nat, receiver: Value, args: seq<Value>)
    ensures var vars := CallVars(st, kind, ps, env, receiver, args);
      && (kind.PlainFn? ==> vars.Keys == set x | x in ParamNames(ps))
      && (!kind.PlainFn? ==> vars.Keys == (set x | x in ParamNames(ps)) + {"this"})
      && (kind.MethodFn? ==> vars["this"] == receiver)
      && (kind.ArrowFn? ==> vars["this"] == LookupOr(st.frames, env, "this"))
      && (forall i :: 0 <= i < |ps| && ps[i].Identifier? && ps[i].name != "this" && ParamKey(ps[i]) !in ParamNames(ps)[i + 1..]
            ==> vars[ps[i].name] == ArgAt(args, i))
  {
    var names := ParamNames(ps);
    BindArgsKeys(names, args);
    forall i | 0 <= i < |ps| && ps[i].Identifier? && ps[i].name != "this" && ParamKey(ps[i]) !in names[i + 1..]
      ensures CallVars(st, kind, ps, env, receiver, args)[ps[i].name] == ArgAt(args, i)
    {
      BindArgsValues(names, args, i);
    }
  }

  /** The frame a call of callable `f` runs its body in. */
  function CallState(st: State, f: Callable, receiver: Value, args: seq<Value>): State
    requires f.Fun?
  {
    st.(frames := st.frames + [Frame(CallVars(st, f.kind, f.params, f.env, receiver, args), Some(f.env))])
  }

  /**
   * Calling an interpreted function runs its body in a new frame, child of
   * the defining frame: a `return v` (a thrown return signal) becomes the
   * result `v`; a body that completes gives its value; any other throw,
   * break and continue signals included, propagates to the caller.
   */
  lemma CallOutcome(f: nat, receiver: Value, args: seq<Value>, st: State, fuel: nat)
    requires fuel > 0 && f < |st.callables| && st.callables[f].Fun?
    ensures var b := Exec(st.callables[f].body, |st.frames|, CallState(st, st.callables[f], receiver, args), fuel - 1);
      var r := Apply(f, receiver, args, st, fuel);
      && (b.Ok? && b.c.Normal? ==> r == b)
      && (forall v :: b.Ok? && b.c == Threw(Exn(ReturnSignal(v))) ==> r == Ok(Normal(v), b.st))
      && (b.Ok? && b.c == Threw(Exn(BreakSignal)) ==> r == b)
      && (b.Ok? && b.c == Threw(Exn(ContinueSignal)) ==> r == b)
  {
    var b := Exec(st.callables[f].body, |st.frames|, CallState(st, st.callables[f], receiver, args), fuel - 1);
  }

  /**
   * A function body that throws anything whose `__return` is not set (an
   * error, a break or continue signal, a thrown object) makes the call
   * throw it, in the state the body left.
   */
  lemma CallPropagates(f: nat, receiver: Value, args: seq<Value>, st: State, fuel: nat)
    requires fuel > 0 && f < |st.callables| && st.callables[f].Fun?
    ensures var b := Exec(st.callables[f].body, |st.frames|, CallState(st, st.callables[f], receiver, args), fuel - 1);
      b.Ok? && b.c.Threw? && Flag(b.st, b.c.thrown, ReturnFlag) == Some(false) ==> Apply(f, receiver, args, st, fuel) == b
  {
  }

  /** A bound callable calls its target with the receiver it was bound to, whatever receiver the call supplies. */
  lemma BoundIgnoresReceiver(f: nat, receiver: Value, args: seq<Value>, st: State, fuel: nat)
    requires fuel > 0 && f < |st.callables| && st.callables[f].Bound?
    ensures Apply(f, receiver, args, st, fuel) == Apply(st.callables[f].target, st.callables[f].receiver, args, st, fuel - 1)
  {
  }

  // ---------------------------------------------------------------------
  // Patterns

  /** A default in an array pattern is not evaluated when the element is present: the element is bound as if there were no default. */
  lemma DefaultSkippedWhenPresent(x: string, d: Node, i: nat, src: Value, scope: nat, st: State, fuel: nat)
    requires fuel > 1 && ElemAt(st, src, i) != Undefined
    ensures BindElem(AssignmentPattern(Identifier(x), d), i, src, scope, st, fuel)
      == BindElem(Identifier(x), i, src, scope, st, fuel)
    ensures BindElem(Identifier(x), i, src, scope, st, fuel)
      == if RootInherits(st.frames, scope, x) then Stuck("write to Object.prototype through the scope")
         else Ok(Normal(Undefined), st.(frames := SetVar(st.frames, scope, x, ElemAt(st, src, i))))
  {
  }

  /**
   * A missing element and an explicit `undefined` are alike: in both cases
   * the default is evaluated and its value bound.
   */
  lemma DefaultUsedWhenUndefined(x: string, d: Node, i: nat, a: nat, scope: nat, st: State, fuel: nat)
    requires fuel > 1
    requires i >= ArrayLen(st, a) || st.arrays[a][i] == Undefined
    ensures var o := Exec(d, scope, st, fuel - 1);
      var r := BindElem(AssignmentPattern(Identifier(x), d), i, Arr(a), scope, st, fuel);
      && (o.IsFailure() ==> r == o)
      && (!o.IsFailure() ==> r == if RootInherits(o.st.frames, scope, x) then Stuck("write to Object.prototype through the scope")
                                 else Ok(Normal(Undefined), o.st.(frames := SetVar(o.st.frames, scope, x, o.c.value))))
  {
  }

  /**
   * The rest element of an object pattern receives a new record holding
   * the source's own entries except the keys the properties picked; a key
   * written as an identifier is always among those picked.
   */
  lemma ObjectRestOmitsPicked(ps: seq<Node>, src: Value, scope: nat, st: State, fuel: nat)
    requires fuel > 0 && !Nullish(src)
    ensures var g := BindProps(ps, src, {}, scope, st, fuel - 1);
      g.Done? ==>
        var rest := RestOf(OwnEntries(g.st, src), g.val);
        && (forall k :: k in rest <==> k in OwnEntries(g.st, src) && Str(k) !in g.val)
        && (forall k :: k in rest ==> rest[k] == OwnEntries(g.st, src)[k])
        && (forall j :: 0 <= j < |ps| && ps[j].Property? && ps[j].key.Identifier? ==> ps[j].key.name !in rest)
  {
  }

  // ---------------------------------------------------------------------
  // Classes

  /**
   * A class declaration binds its name, in the current frame, to a new
   * class callable whose records of statics and of prototype methods hold
   * only names of static (prototype) methods of the body; a class without a
   * constructor method has none.  A method the host does not let the loop
   * install makes the declaration `Stuck`.
   */
  lemma ClassDeclared(id: string, ms: seq<Node>, scope: nat, st: State)
    requires scope < |st.frames|
    ensures var r := DeclareClass(id, ms, scope, st);
      && (r.Stuck? <==> exists i :: 0 <= i < |ms| && IsMethod(ms[i]) && Blocked(ms[i].isStatic, MethodName(ms[i].key)))
      && (r.Ok? ==>
            var c := |r.st.callables| - 1;
            && c >= 0 && r.st.callables[c].ClassFn?
            && r.st.frames[scope].vars == st.frames[scope].vars[id := Closure(c)]
            && Lookup(r.st.frames, scope, id) == Some(Closure(c))
            && var k := r.st.callables[c];
            && k.statics < |r.st.objects| && k.proto < |r.st.objects|
            && (forall x :: x in r.st.objects[k.statics].fields ==> NamedBy(ms, true, x))
            && (forall x :: x in r.st.objects[k.proto].fields ==> NamedBy(ms, false, x))
            && ((forall i :: 0 <= i < |ms| ==> !(Installs(ms[i]) && ms[i].kind == "constructor")) ==> k.ctor.None?))
  {
    var r := DeclareClass(id, ms, scope, st);
    if r.Ok? {
      var parts := ClassMembers(ms, scope, ClassParts(st, None, map[], map[])).value;
      assert |parts.st.frames| >= |st.frames|;
    }
  }

  /**
   * The last static method of each name is installed on the class's record
   * of statics, and the last prototype method of each name on its
   * prototype record, each as a method closure over the current frame.
   */
  lemma ClassMethodsInstalled(id: string, ms: seq<Node>, scope: nat, st: State)
    ensures var r := DeclareClass(id, ms, scope, st);
      r.Ok? ==>
        var k := r.st.callables[|r.st.callables| - 1];
        && (forall i :: 0 <= i < |ms| && IsMethod(ms[i]) && ms[i].isStatic && LastOfName(ms, i) ==>
              var f := r.st.objects[k.statics].fields;
              MethodName(ms[i].key) in f && MethodClosure(r.st, f[MethodName(ms[i].key)], ms[i], scope))
        && (forall i :: 0 <= i < |ms| && IsMethod(ms[i]) && !ms[i].isStatic && LastOfName(ms, i) ==>
              var f := r.st.objects[k.proto].fields;
              MethodName(ms[i].key) in f && MethodClosure(r.st, f[MethodName(ms[i].key)], ms[i], scope))
  {
    var acc := ClassParts(st, None, map[], map[]);
    var r := DeclareClass(id, ms, scope, st);
    if r.Ok? {
      var parts := ClassMembers(ms, scope, acc).value;
      forall i | 0 <= i < |ms| && IsMethod(ms[i]) && LastOfName(ms, i)
        ensures var table := if ms[i].isStatic then parts.statics else parts.proto;
          MethodName(ms[i].key) in table && MethodClosure(r.st, table[MethodName(ms[i].key)], ms[i], scope)
      {
        ClassMembersInstall(ms, scope, acc, i);
      }
    }
  }

  /** The last constructor method of a class body is the class's constructor, a method closure over the current frame. */
  lemma ClassCtorInstalled(id: string, ms: seq<Node>, scope: nat, st: State)
    ensures var r := DeclareClass(id, ms, scope, st);
      r.Ok? ==>
        var k := r.st.callables[|r.st.callables| - 1];
        forall i :: 0 <= i < |ms| && LastCtor(ms, i) ==> k.ctor.Some? && MethodClosure(r.st, Closure(k.ctor.value), ms[i], scope)
  {
    var acc := ClassParts(st, None, map[], map[]);
    var r := DeclareClass(id, ms, scope, st);
    if r.Ok? {
      var parts := ClassMembers(ms, scope, acc).value;
      forall i | 0 <= i < |ms| && LastCtor(ms, i)
        ensures parts.ctor.Some? && MethodClosure(r.st, Closure(parts.ctor.value), ms[i], scope)
      {
        ClassCtorInstall(ms, scope, acc, i);
      }
    }
  }

  /**
   * A private method `#n() {...}` is installed like a plain one, under its
   * name `n`: `class C { #m() { return 1 } }` puts `m` on the prototype.
   */
  lemma PrivateMethodInstalled(id: string, n: string, params: seq<Node>, body: Node, scope: nat, st: State)
    requires scope < |st.frames|
    ensures var m := MethodDefinition(PrivateIdentifier(n), params, body, "method", false);
      var r := DeclareClass(id, [m], scope, st);
      && (r.Stuck? <==> Blocked(false, n))
      && (r.Ok? ==>
            var k := r.st.callables[|r.st.callables| - 1];
            && k.proto < |r.st.objects|
            && n in r.st.objects[k.proto].fields
            && MethodClosure(r.st, r.st.objects[k.proto].fields[n], m, scope))
  {
    var m := MethodDefinition(PrivateIdentifier(n), params, body, "method", false);
    assert IsMethod(m) && LastOfName([m], 0);
    ClassDeclared(id, [m], scope, st);
    ClassMethodsInstalled(id, [m], scope, st);
  }

  /**
   * `new C(...)` on a class: the result is always the new instance, whose
   * prototype link is the class prototype; a throw from the constructor
   * method does not reach the caller.
   */
  lemma ConstructorThrowLost(k: nat, proto: nat, args: seq<Value>, st: State, fuel: nat)
    requires fuel > 0
    ensures var inst := |st.objects|;
      var st1 := st.(objects := st.objects + [Obj(map[], Some(proto))]);
      var a := Apply(k, Rec(inst), args, st1, fuel - 1);
      var r := Instantiate(Some(k), proto, args, st, fuel);
      && (a.Ok? ==> r == Ok(Normal(Rec(inst)), a.st) && r.st.objects[inst].proto == Some(proto))
      && (a.Stuck? ==> r.Stuck?)
  {
  }

  /** An instance without an own property `k` reads it through its prototype. */
  lemma InstanceReadsPrototype(objs: seq<Obj>, inst: nat, proto: nat, k: string)
    requires inst < |objs| && objs[inst].proto == Some(proto) && proto < inst
    requires k !in objs[inst].fields
    ensures RecordGet(objs, inst, k) == RecordGet(objs, proto, k)
  {
  }

  // ---------------------------------------------------------------------
  // The array combinators

  /** The value `find`, `findIndex`, `some` or `every` computes from a walk. */
  function SearchResult(k: Kind, vs: seq<Visit<State>>): Value {
    match k
    case FindKind => FindOf(vs)
    case FindIndexKind => FindIndexOf(vs)
    case SomeKind => SomeOf(vs)
    case _ => EveryOf(vs)
  }

  /**
   * `find`, `findIndex`, `some` and `every` never throw (a failing callback
   * counts as a falsy verdict): their value is computed from a walk of the
   * array from index 0, with `this` the second argument, which makes the
   * callback calls and leads to the final state.
   */
  lemma CombinatorSearch(name: string, a: nat, cb: nat, args: seq<Value>, st: State, fuel: nat)
    requires fuel > 0 && name in {"find", "findIndex", "some", "every"}
    ensures var r := Combinator(name, a, cb, args, st, fuel);
      r.Ok? ==> fuel > 1 && r.c.Normal? && exists vs ::
        Walked(KindOf(name), cb, ArgAt(args, 1), a, 0, vs, st, r.st, fuel - 2) && r.c.value == SearchResult(KindOf(name), vs)
  {
    var g := Scan(KindOf(name), a, cb, ArgAt(args, 1), 0, st, fuel - 1);
    if g.Done? {
      assert Walked(KindOf(name), cb, ArgAt(args, 1), a, 0, g.val, st, g.st, fuel - 2);
      assert Combinator(name, a, cb, args, st, fuel) == Ok(Normal(SearchResult(KindOf(name), g.val)), g.st);
    }
  }

  /**
   * `filter` never throws either (a failing callback counts as a falsy
   * verdict): its value is a new array of the kept elements of a walk of
   * the whole array.
   */
  lemma FilterCollect(a: nat, cb: nat, args: seq<Value>, st: State, fuel: nat)
    requires fuel > 0
    ensures var r := Combinator("filter", a, cb, args, st, fuel);
      r.Ok? ==> fuel > 1 && r.c.Normal? && exists vs, st1 ::
        && Walked(FilterKind, cb, ArgAt(args, 1), a, 0, vs, st, st1, fuel - 2)
        && r.c.value == Arr(|st1.arrays|) && r.st.arrays == st1.arrays + [FilterOf(vs)]
  {
    var g := Scan(FilterKind, a, cb, ArgAt(args, 1), 0, st, fuel - 1);
    if g.Done? {
      assert Walked(FilterKind, cb, ArgAt(args, 1), a, 0, g.val, st, g.st, fuel - 2);
    }
  }

  /**
   * `map` never throws: its value is a new array of the verdicts of a walk
   * of the whole array, as long as the array was when the call began, or
   * the walk if that grew.
   */
  lemma MapCollect(a: nat, cb: nat, args: seq<Value>, st: State, fuel: nat)
    requires fuel > 0
    ensures var r := Combinator("map", a, cb, args, st, fuel);
      r.Ok? ==> fuel > 1 && r.c.Normal? && exists vs, st1 ::
        && Walked(MapKind, cb, ArgAt(args, 1), a, 0, vs, st, st1, fuel - 2)
        && r.c.value == Arr(|st1.arrays|) && r.st.arrays == st1.arrays + [MapOf(vs, ArrayLen(st, a))]
  {
    var g := Scan(MapKind, a, cb, ArgAt(args, 1), 0, st, fuel - 1);
    if g.Done? {
      assert Walked(MapKind, cb, ArgAt(args, 1), a, 0, g.val, st, g.st, fuel - 2);
    }
  }

  /**
   * What a walk of `find`, `findIndex` or `some` means: if some verdict is
   * truthy, the walk stopped at the first one, which is its last visit, at
   * index `|vs| - 1`; otherwise it went on until the index reached the
   * array's length.
   */
  lemma SearchWalk(k: Kind, cb: nat, thisArg: Value, a: nat, vs: seq<Visit<State>>, st0: State, st: State, fuel: nat)
    requires k == FindKind || k == FindIndexKind || k == SomeKind
    requires Walked(k, cb, thisArg, a, 0, vs, st0, st, fuel)
    ensures (exists j :: 0 <= j < |vs| && Truthy(vs[j].verdict)) ==>
      && |vs| > 0 && FirstTruthy(vs, |vs| - 1)
      && (k == FindKind ==> SearchResult(k, vs) == vs[|vs| - 1].after)
      && (k == FindIndexKind ==> SearchResult(k, vs) == Int(|vs| - 1))
      && (k == SomeKind ==> SearchResult(k, vs) == Bool(true))
    ensures (forall j :: 0 <= j < |vs| ==> !Truthy(vs[j].verdict)) ==>
      && |vs| >= ArrayLen(st, a)
      && (k == FindKind ==> SearchResult(k, vs) == Undefined)
      && (k == FindIndexKind ==> SearchResult(k, vs) == Int(-1))
      && (k == SomeKind ==> SearchResult(k, vs) == Bool(false))
  {
    if exists j :: 0 <= j < |vs| && Truthy(vs[j].verdict) {
      var j :| 0 <= j < |vs| && Truthy(vs[j].verdict);
      assert Stops(k, vs[j].verdict);
      assert j == |vs| - 1;
      assert FirstTruthy(vs, |vs| - 1);
      assert vs[|vs| - 1].index == |vs| - 1;
    }
  }

  /**
   * What a walk of `every` means: it is true exactly when every verdict is
   * truthy, and then the walk reached the array's length; when false, the
   * last visit is the first falsy one.
   */
  lemma EveryWalk(cb: nat, thisArg: Value, a: nat, vs: seq<Visit<State>>, st0: State, st: State, fuel: nat)
    requires Walked(EveryKind, cb, thisArg, a, 0, vs, st0, st, fuel)
    ensures EveryOf(vs) == Bool(true) ==> |vs| >= ArrayLen(st, a)
    ensures EveryOf(vs) == Bool(false) ==>
      |vs| > 0 && !Truthy(vs[|vs| - 1].verdict) && forall j :: 0 <= j < |vs| - 1 ==> Truthy(vs[j].verdict)
  {
    if EveryOf(vs) == Bool(false) {
      var j :| 0 <= j < |vs| && !Truthy(vs[j].verdict);
      assert Stops(EveryKind, vs[j].verdict);
    }
  }

  /**
   * `filter` and `map` visit every index, in order, up to the array's
   * length as it is at the end, never stopping early.
   */
  lemma CollectWalk(k: Kind, cb: nat, thisArg: Value, a: nat, vs: seq<Visit<State>>, st0: State, st: State, fuel: nat)
    requires k == FilterKind || k == MapKind
    requires Walked(k, cb, thisArg, a, 0, vs, st0, st, fuel)
    ensures |vs| >= ArrayLen(st, a)
    ensures forall j :: 0 <= j < |vs| ==> vs[j].index == j
  {
    if vs != [] {
      assert !Stops(k, vs[|vs| - 1].verdict);
    }
  }

  /** `reduce` on an empty array: the seed when there is one, a TypeError otherwise; the callback is never called. */
  lemma ReduceOfEmpty(a: nat, cb: nat, args: seq<Value>, st: State, fuel: nat)
    requires fuel > 1 && ArrayLen(st, a) == 0
    ensures |args| >= 2 ==> Combinator("reduce", a, cb, args, st, fuel) == Ok(Normal(args[1]), st)
    ensures |args| < 2 ==>
      Combinator("reduce", a, cb, args, st, fuel) == Ok(Threw(Exn(TypeError("Reduce of empty array with no initial value"))), st)
  {
  }

  /** `reduce` without a seed on a one-element array returns that element without calling the callback. */
  lemma ReduceOfSingleton(a: nat, cb: nat, args: seq<Value>, st: State, fuel: nat)
    requires fuel > 1 && ArrayLen(st, a) == 1 && |args| < 2
    ensures Combinator("reduce", a, cb, args, st, fuel) == Ok(Normal(st.arrays[a][0]), st)
  {
  }

  /** `forEach` completes with undefined. */
  lemma ForEachUndefined(a: nat, cb: nat, args: seq<Value>, st: State, fuel: nat)
    requires fuel > 0
    ensures var r := Combinator("forEach", a, cb, args, st, fuel);
      r.Ok? && r.c.Normal? ==> r.c.value == Undefined
  {
  }
}
