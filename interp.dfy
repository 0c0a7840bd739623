/**
 * The evaluator `exec(node, scope)` and the helpers it shares with the
 * functions it creates: `assignPattern`, the parameter binding of every
 * interpreted function, the class constructor, and the array callback
 * combinators.
 *
 * `exec` is written as a family of mutually recursive functions over an
 * explicit state.  The interpreter signals `return`, `break` and `continue`
 * by throwing plain objects (`{__return: true, value}`, `{__break: true}`,
 * `{__continue: true}`) and recognises them by reading those flags off
 * whatever it catches, so a completion is either a value or a thrown value,
 * and every catch site below reads the same flags.  `Stuck` is outside the
 * language: the fuel ran out, or evaluation reached a host feature the
 * model leaves out.
 *
 * Every call is awaited: a call of an interpreted function yields its
 * settled outcome.  Sequential evaluation stands in for `Promise.all`.
 */
module Interp {
  import opened Wrappers
  import opened Values
  import opened Ast
  import opened Operators
  import opened Frames
  import opened Store
  import opened Combinators
  import opened Templates

  datatype Completion = Normal(value: Value) | Threw(thrown: Value)

  /** A value and the state after computing it. */
  datatype Out = Out(value: Value, st: State)

  datatype Res = Ok(c: Completion, st: State) | Stuck(reason: string) {
    predicate IsFailure() { Stuck? || c.Threw? }
    function PropagateFailure(): Res requires IsFailure() { this }
    function Extract(): Out requires !IsFailure() { Out(c.value, st) }

    /** Nothing the interpreter throws is `undefined` or `null`, so reading a flag off it never fails. */
    predicate Sound() { Ok? && c.Threw? ==> !Nullish(c.thrown) }

    /** The state reached extends the state `st0` evaluation started from. */
    ghost predicate From(st0: State) { Ok? ==> Extends(st0, st) }
  }

  /** An intermediate result (a list of values, a set of keys), or the failure that ends the construct. */
  datatype Step<T> = Done(val: T, st: State) | Fail(r: Res) {
    predicate IsFailure() { Fail? }
    function PropagateFailure(): Res requires IsFailure() { r }
    function Extract(): Step<T> requires !IsFailure() { this }

    predicate Sound() { Fail? ==> r.IsFailure() && r.Sound() }

    ghost predicate From(st0: State) { (Done? ==> Extends(st0, st)) && (Fail? ==> r.From(st0)) }
  }

  function Raise(st: State, e: Exception): (r: Res)
    ensures r.Sound() && r.IsFailure() && r.From(st)
  {
    Ok(Threw(Exn(e)), st)
  }

  function LookupOr(fs: seq<Frame>, id: nat, x: string): Value {
    match Lookup(fs, id, x)
    case Some(v) => v
    case None => Undefined
  }

  function ArgAt(args: seq<Value>, i: nat): Value {
    if i < |args| then args[i] else Undefined
  }

  /** The three flags the catch sites read off a caught value. */
  datatype FlagName = ReturnFlag | BreakFlag | ContinueFlag {
    function Key(): string {
      match this
      case ReturnFlag => "__return"
      case BreakFlag => "__break"
      case ContinueFlag => "__continue"
    }
  }

  /** Whether exception value `x` is the signal that sets flag `f`. */
  predicate Signals(x: Exception, f: FlagName) {
    match f
    case ReturnFlag => x.ReturnSignal?
    case BreakFlag => x.BreakSignal?
    case ContinueFlag => x.ContinueSignal?
  }

  /**
   * Whether `e[f]` is truthy, for a caught value `e` (`None`: the read is not
   * modelled).  On the interpreter's own exceptions and signals the flag is
   * read off directly; the `FlagReads...` lemmas of module Properties show
   * that this is the property read.
   */
  function Flag(st: State, e: Value, f: FlagName): Option<bool>
    requires !Nullish(e)
  {
    if e.Exn? then Some(Signals(e.exn, f))
    else match GetProp(st, e, Str(f.Key()))
      case Some(v) => Some(Truthy(v))
      case None => None
  }

  /** `e.value` for a caught value `e` whose `__return` flag is set. */
  function Returned(st: State, e: Value): Option<Value>
    requires !Nullish(e)
  {
    if e.Exn? && e.exn.ReturnSignal? then Some(e.exn.returned) else GetProp(st, e, Str("value"))
  }

  /**
   * How every interpreted function ends: a thrown value whose `__return` flag
   * is set becomes the function's result (its `value`); anything else thrown
   * propagates.
   */
  function FnExit(st: State, c: Completion): (r: Res)
    requires c.Threw? ==> !Nullish(c.thrown)
    ensures r.Sound() && r.From(st)
    ensures r.Ok? ==> r.st == st
    ensures c.Normal? ==> r == Ok(c, st)
    ensures r.Ok? && r.c.Threw? ==> c.Threw? && r.c == c && Flag(st, c.thrown, ReturnFlag) == Some(false)
  {
    match c
    case Normal(_) => Ok(c, st)
    case Threw(e) =>
      match Flag(st, e, ReturnFlag)
      case Some(true) =>
        (match Returned(st, e)
          case Some(v) => Ok(Normal(v), st)
          case None => Stuck("reading value of a returned object"))
      case Some(false) => Ok(c, st)
      case None => Stuck("reading __return of a thrown value")
  }

  // ---------------------------------------------------------------------
  // Parameters and the closures `exec` creates

  /** The binding name of a parameter: `param.name`, which only an identifier has. */
  function ParamKey(p: Node): string {
    if p.Identifier? then p.name else "undefined"
  }

  function ParamNames(ps: seq<Node>): (names: seq<string>)
    ensures |names| == |ps| && forall i :: 0 <= i < |ps| ==> names[i] == ParamKey(ps[i])
  {
    seq(|ps|, i requires 0 <= i < |ps| => ParamKey(ps[i]))
  }

  /** `params.forEach((param, i) => fnScope[param.name] = argsValues[i])`, on the names. */
  function BindArgs(names: seq<string>, args: seq<Value>): map<string, Value>
    decreases |names|
  {
    if names == [] then map[]
    else BindArgs(names[..|names| - 1], args)[names[|names| - 1] := ArgAt(args, |names| - 1)]
  }

  function ParamVars(ps: seq<Node>, args: seq<Value>): map<string, Value> {
    BindArgs(ParamNames(ps), args)
  }

  /** The call frame binds exactly the parameters' names. */
  lemma {:induction false} BindArgsKeys(names: seq<string>, args: seq<Value>)
    ensures BindArgs(names, args).Keys == set x | x in names
    decreases |names|
  {
    if names != [] {
      var n := |names| - 1;
      BindArgsKeys(names[..n], args);
      assert names == names[..n] + [names[n]];
      assert (set x | x in names) == (set x | x in names[..n]) + {names[n]};
    }
  }

  /** Each name is bound to the argument at the last position that uses it (undefined past the end of the arguments). */
  lemma {:induction false} BindArgsValues(names: seq<string>, args: seq<Value>, i: nat)
    requires i < |names|
    requires names[i] !in names[i + 1..]
    ensures names[i] in BindArgs(names, args) && BindArgs(names, args)[names[i]] == ArgAt(args, i)
    decreases |names|
  {
    var n := |names| - 1;
    if i < n {
      var init := names[..n];
      assert names[n] in names[i + 1..];
      assert init[i + 1..] == names[i + 1..n];
      assert init[i] == names[i];
      BindArgsValues(init, args, i);
    }
  }

  /** The frame variables of a call: the parameters, then `this` as the kind of function binds it. */
  function CallVars(st: State, kind: FunKind, ps: seq<Node>, env: nat, receiver: Value, args: seq<Value>): map<string, Value> {
    var vars := ParamVars(ps, args);
    match kind
    case PlainFn => vars
    case ArrowFn => vars["this" := LookupOr(st.frames, env, "this")]
    case MethodFn => vars["this" := receiver]
  }

  /** A new closure over `scope`. */
  function MakeClosure(st: State, kind: FunKind, ps: seq<Node>, body: Node, scope: nat, isAsync: bool): (r: Out)
    ensures Extends(st, r.st)
    ensures r.value == Closure(|st.callables|) && r.st.callables == st.callables + [Fun(kind, ps, body, scope, isAsync)]
  {
    var (st', f) := NewCallable(st, Fun(kind, ps, body, scope, isAsync));
    Out(Closure(f), st')
  }

  /** Top-level function declarations, bound before the program's first statement runs. */
  function Hoist(ss: seq<Node>, scope: nat, st: State): (r: State)
    ensures Extends(st, r)
    ensures |r.frames| == |st.frames|
    ensures forall j :: 0 <= j < |st.frames| && j != scope ==> r.frames[j] == st.frames[j]
    ensures scope < |st.frames| ==>
      && st.frames[scope].vars.Keys <= r.frames[scope].vars.Keys
      && (forall i :: 0 <= i < |ss| && ss[i].FunctionDeclaration? ==>
            ss[i].id in r.frames[scope].vars && r.frames[scope].vars[ss[i].id].Closure?)
      && (forall y :: y in st.frames[scope].vars && (forall i :: 0 <= i < |ss| && ss[i].FunctionDeclaration? ==> ss[i].id != y)
            ==> r.frames[scope].vars[y] == st.frames[scope].vars[y])
    decreases |ss|
  {
    if ss == [] then st
    else
      var st1 := if ss[0].FunctionDeclaration? then
          var o := MakeClosure(st, PlainFn, ss[0].params, ss[0].body, scope, true);
          Declare(o.st, scope, ss[0].id, o.value)
        else st;
      var r := Hoist(ss[1..], scope, st1);
      assert forall i :: 1 <= i < |ss| ==> ss[i] == ss[1..][i - 1];
      r
  }

  /** Statement `i` of `ss` is a function declaration, and no later one declares its name. */
  ghost predicate LastDeclOfName(ss: seq<Node>, i: nat) {
    i < |ss| && ss[i].FunctionDeclaration?
    && forall j :: i < j < |ss| && ss[j].FunctionDeclaration? ==> ss[j].id != ss[i].id
  }

  /**
   * After hoisting, the last function declaration of each name binds it, in
   * the frame `scope`, to a closure made from that declaration over `scope`.
   */
  lemma {:induction false} HoistBinds(ss: seq<Node>, scope: nat, st: State, i: nat)
    requires scope < |st.frames| && LastDeclOfName(ss, i)
    ensures var r := Hoist(ss, scope, st);
      var v := r.frames[scope].vars[ss[i].id];
      v.Closure? && v.fn < |r.callables| && r.callables[v.fn] == Fun(PlainFn, ss[i].params, ss[i].body, scope, true)
    decreases |ss|
  {
    var st1 := if ss[0].FunctionDeclaration? then
        var o := MakeClosure(st, PlainFn, ss[0].params, ss[0].body, scope, true);
        Declare(o.st, scope, ss[0].id, o.value)
      else st;
    var rest := ss[1..];
    assert forall j :: 0 <= j < |rest| ==> rest[j] == ss[j + 1];
    assert Hoist(ss, scope, st) == Hoist(rest, scope, st1);
    if i > 0 {
      assert LastDeclOfName(rest, i - 1);
      HoistBinds(rest, scope, st1, i - 1);
    } else {
      var f := Fun(PlainFn, ss[0].params, ss[0].body, scope, true);
      assert st1.frames[scope].vars[ss[0].id] == Closure(|st.callables|);
      assert st1.callables == st.callables + [f];
      var r := Hoist(rest, scope, st1);
      assert forall j :: 0 <= j < |rest| && rest[j].FunctionDeclaration? ==> rest[j].id != ss[0].id;
      assert r.frames[scope].vars[ss[0].id] == Closure(|st.callables|);
      assert st1.callables <= r.callables;
      assert r.callables[|st.callables|] == f;
    }
  }

  /** The parts of a class as its member loop collects them. */
  datatype ClassParts = ClassParts(st: State, ctor: Option<nat>, statics: map<string, Value>, proto: map<string, Value>)

  /** The name a method is stored under: `method.key.name`, which a private `#m` also has (without its `#`). */
  function MethodName(key: Node): string {
    if key.Identifier? || key.PrivateIdentifier? then key.name else "undefined"
  }

  /** Whether the member loop installs `m`: a method definition with a key. */
  predicate Installs(m: Node) {
    m.MethodDefinition? && !m.key.Empty?
  }

  /** Whether `m` is installed on the class or its prototype: any installed method but a constructor. */
  predicate IsMethod(m: Node) {
    Installs(m) && m.kind != "constructor"
  }

  /** Some static method (`isStatic`), or some prototype method, of `ms` is named `k`. */
  ghost predicate NamedBy(ms: seq<Node>, isStatic: bool, k: string) {
    exists i :: 0 <= i < |ms| && IsMethod(ms[i]) && ms[i].isStatic == isStatic && MethodName(ms[i].key) == k
  }

  /** Member `i` is a method, and the last static (or the last prototype) method with its name. */
  ghost predicate LastOfName(ms: seq<Node>, i: nat) {
    i < |ms| && IsMethod(ms[i])
    && forall j :: i < j < |ms| && IsMethod(ms[j]) && ms[j].isStatic == ms[i].isStatic ==> MethodName(ms[j].key) != MethodName(ms[i].key)
  }

  /** Member `i` is the last constructor. */
  ghost predicate LastCtor(ms: seq<Node>, i: nat) {
    i < |ms| && Installs(ms[i]) && ms[i].kind == "constructor"
    && forall j :: i < j < |ms| ==> !(Installs(ms[j]) && ms[j].kind == "constructor")
  }

  /** `v` is a method closure made from `m` over `scope`. */
  ghost predicate MethodClosure(st: State, v: Value, m: Node, scope: nat)
    requires m.MethodDefinition?
  {
    v.Closure? && v.fn < |st.callables| && st.callables[v.fn] == Fun(MethodFn, m.params, m.body, scope, true)
  }

  /**
   * The member loop of a class declaration: every method definition with a
   * key becomes a method closure over `scope`; the last one of kind
   * `constructor` is the constructor, static ones go to the class, the rest
   * to its prototype.  `None`: a key the host does not let the loop write.
   */
  function ClassMembers(ms: seq<Node>, scope: nat, acc: ClassParts): (r: Option<ClassParts>)
    ensures r.None? <==> exists i :: 0 <= i < |ms| && IsMethod(ms[i]) && Blocked(ms[i].isStatic, MethodName(ms[i].key))
    ensures r.Some? ==> Extends(acc.st, r.value.st) && r.value.st.frames == acc.st.frames
    ensures r.Some? ==> acc.statics.Keys <= r.value.statics.Keys && acc.proto.Keys <= r.value.proto.Keys
    ensures r.Some? ==> forall k :: k in r.value.statics && k !in acc.statics ==> NamedBy(ms, true, k)
    ensures r.Some? ==> forall k :: k in r.value.proto && k !in acc.proto ==> NamedBy(ms, false, k)
    ensures r.Some? ==> forall k :: k in acc.statics && !NamedBy(ms, true, k) ==> r.value.statics[k] == acc.statics[k]
    ensures r.Some? ==> forall k :: k in acc.proto && !NamedBy(ms, false, k) ==> r.value.proto[k] == acc.proto[k]
    ensures r.Some? && (forall i :: 0 <= i < |ms| ==> !(Installs(ms[i]) && ms[i].kind == "constructor")) ==> r.value.ctor == acc.ctor
    decreases |ms|
  {
    if ms == [] then Some(acc)
    else
      var m := ms[0];
      if IsMethod(m) && Blocked(m.isStatic, MethodName(m.key)) then None
      else
        var acc1 := AddMember(m, scope, acc);
        var r := ClassMembers(ms[1..], scope, acc1);
        assert forall i :: 0 <= i < |ms| - 1 ==> ms[1..][i] == ms[i + 1];
        r
  }

  /** The parts after member `m` of a class body is collected (`m` is not blocked). */
  function AddMember(m: Node, scope: nat, acc: ClassParts): ClassParts {
    if Installs(m) then
      var o := MakeClosure(acc.st, MethodFn, m.params, m.body, scope, true);
      if m.kind == "constructor" then acc.(st := o.st, ctor := Some(o.value.fn))
      else if m.isStatic then acc.(st := o.st, statics := acc.statics[MethodName(m.key) := o.value])
      else acc.(st := o.st, proto := acc.proto[MethodName(m.key) := o.value])
    else acc
  }

  /** The last static (prototype) method of each name is installed under that name as a method closure over `scope`. */
  lemma {:induction false} ClassMembersInstall(ms: seq<Node>, scope: nat, acc: ClassParts, i: nat)
    requires ClassMembers(ms, scope, acc).Some?
    requires i < |ms| && IsMethod(ms[i]) && LastOfName(ms, i)
    ensures var r := ClassMembers(ms, scope, acc).value;
      var table := if ms[i].isStatic then r.statics else r.proto;
      MethodName(ms[i].key) in table && MethodClosure(r.st, table[MethodName(ms[i].key)], ms[i], scope)
    decreases |ms|
  {
    var m := ms[0];
    var acc1 := AddMember(m, scope, acc);
    var rest := ms[1..];
    assert forall j :: 0 <= j < |ms| - 1 ==> rest[j] == ms[j + 1];
    assert ClassMembers(ms, scope, acc) == ClassMembers(rest, scope, acc1);
    if i > 0 {
      assert LastOfName(rest, i - 1);
      ClassMembersInstall(rest, scope, acc1, i - 1);
    } else {
      var r := ClassMembers(rest, scope, acc1).value;
      assert Extends(acc1.st, r.st);
      var k := MethodName(m.key);
      if m.isStatic {
        assert forall j :: 0 <= j < |rest| && IsMethod(rest[j]) && rest[j].isStatic ==> MethodName(rest[j].key) != k;
      } else {
        assert forall j :: 0 <= j < |rest| && IsMethod(rest[j]) && !rest[j].isStatic ==> MethodName(rest[j].key) != k;
      }
    }
  }

  /** The last constructor method is the class's constructor, a method closure over `scope`. */
  lemma {:induction false} ClassCtorInstall(ms: seq<Node>, scope: nat, acc: ClassParts, i: nat)
    requires ClassMembers(ms, scope, acc).Some?
    requires LastCtor(ms, i)
    ensures var r := ClassMembers(ms, scope, acc).value;
      r.ctor.Some? && MethodClosure(r.st, Closure(r.ctor.value), ms[i], scope)
    decreases |ms|
  {
    var m := ms[0];
    var acc1 := AddMember(m, scope, acc);
    var rest := ms[1..];
    assert forall j :: 0 <= j < |ms| - 1 ==> rest[j] == ms[j + 1];
    assert ClassMembers(ms, scope, acc) == ClassMembers(rest, scope, acc1);
    if i > 0 {
      assert LastCtor(rest, i - 1);
      ClassCtorInstall(rest, scope, acc1, i - 1);
    } else {
      var r := ClassMembers(rest, scope, acc1).value;
      assert Extends(acc1.st, r.st);
      assert forall j :: 0 <= j < |rest| ==> !(Installs(rest[j]) && rest[j].kind == "constructor");
    }
  }

  /**
   * `class C { ... }`: builds the class and binds it in the current frame.
   * A member the host does not let the loop write is outside the model.
   */
  function DeclareClass(id: string, ms: seq<Node>, scope: nat, st: State): (r: Res)
    ensures r.Sound() && r.From(st)
    ensures r.Ok? ==> r.c == Normal(Undefined)
    ensures r.Stuck? <==> ClassMembers(ms, scope, ClassParts(st, None, map[], map[])).None?
  {
    match ClassMembers(ms, scope, ClassParts(st, None, map[], map[]))
    case None => Stuck("class member that strict mode does not let the class write")
    case Some(parts) =>
      var (st1, statics) := NewObject(parts.st, parts.statics, None);
      var (st2, proto) := NewObject(st1, parts.proto, None);
      var (st3, c) := NewCallable(st2, ClassFn(parts.ctor, statics, proto));
      ExtendsTransitive(st, parts.st, st3);
      Ok(Normal(Undefined), Declare(st3, scope, id, Closure(c)))
  }

  // ---------------------------------------------------------------------
  // Operators that need no recursive evaluation

  /**
   * `typeof scope[x]` for a name the root scope inherits: `__proto__` reads
   * the parent scope object, every other member of `Object.prototype` is a
   * function.
   */
  function InheritedTypeOf(x: string): string {
    if x == "__proto__" then "object" else "function"
  }

  /**
   * `x++`, `x--`, `++x`, `--x` as written: the checks, then `scope[x]++`,
   * which creates or overwrites a binding of the current frame even when
   * `x` belongs to an enclosing one.
   */
  function UpdateStepAsWritten(op: string, prefix: bool, arg: Node, scope: nat, st: State): (r: Res)
    ensures r.Sound()
    ensures r.Stuck? <==>
      arg.Identifier? && Lookup(st.frames, scope, arg.name).Some? && Lookup(st.frames, scope, arg.name).value.Int?
      && (op == "++" || op == "--")
      && !SafeInteger(if op == "++" then Lookup(st.frames, scope, arg.name).value.i + 1 else Lookup(st.frames, scope, arg.name).value.i - 1)
    ensures r.Ok? && r.c.Normal? <==>
      arg.Identifier? && Lookup(st.frames, scope, arg.name).Some? && Lookup(st.frames, scope, arg.name).value.Int?
      && (op == "++" || op == "--")
      && SafeInteger(if op == "++" then Lookup(st.frames, scope, arg.name).value.i + 1 else Lookup(st.frames, scope, arg.name).value.i - 1)
    ensures r.Ok? && r.c.Normal? ==>
      var was := Lookup(st.frames, scope, arg.name).value.i;
      var now := if op == "++" then was + 1 else was - 1;
      && r.c.value == Int(if prefix then now else was)
      && |r.st.frames| == |st.frames|
      && (scope < |st.frames| ==> r.st.frames[scope].vars == st.frames[scope].vars[arg.name := Int(now)])
      && (forall j :: 0 <= j < |st.frames| && j != scope ==> r.st.frames[j] == st.frames[j])
    ensures r.Ok? && r.c.Threw? ==> (r.st == st && r.c.thrown == (
      if !arg.Identifier? then Exn(Error("UpdateExpression supporta solo Identifier come argomento"))
      else if Lookup(st.frames, scope, arg.name).None? then
        if ObjectProtoName(arg.name) then Exn(TypeError("UpdateExpression supporta solo numeri. Got: " + InheritedTypeOf(arg.name)))
        else Exn(ReferenceError("Variabile non definita: " + arg.name))
      else if !Lookup(st.frames, scope, arg.name).value.Int? then
        Exn(TypeError("UpdateExpression supporta solo numeri. Got: " + TypeOf(Lookup(st.frames, scope, arg.name).value)))
      else Exn(Error("Unsupported update operator: " + op))))
  {
    if !arg.Identifier? then Raise(st, Error("UpdateExpression supporta solo Identifier come argomento"))
    else match Lookup(st.frames, scope, arg.name)
      case None =>
        if ObjectProtoName(arg.name) then Raise(st, TypeError("UpdateExpression supporta solo numeri. Got: " + InheritedTypeOf(arg.name)))
        else Raise(st, ReferenceError("Variabile non definita: " + arg.name))
      case Some(v) =>
        if !v.Int? then Raise(st, TypeError("UpdateExpression supporta solo numeri. Got: " + TypeOf(v)))
        else if op != "++" && op != "--" then Raise(st, Error("Unsupported update operator: " + op))
        else
          var now := if op == "++" then v.i + 1 else v.i - 1;
          if !SafeInteger(now) then Stuck("integer beyond Number.MAX_SAFE_INTEGER")
          else
          Ok(Normal(Int(if prefix then now else v.i)), Declare(st, scope, arg.name, Int(now)))
  }

  /**
   * `x++`, `x--`, `++x`, `--x`, with the same checks and error values, the
   * new value written where `x` is bound (the nearest frame owning it).
   */
  function UpdateStep(op: string, prefix: bool, arg: Node, scope: nat, st: State): (r: Res)
    ensures r.Sound()
    ensures r.Stuck? <==>
      arg.Identifier? && Lookup(st.frames, scope, arg.name).Some? && Lookup(st.frames, scope, arg.name).value.Int?
      && (op == "++" || op == "--")
      && !SafeInteger(if op == "++" then Lookup(st.frames, scope, arg.name).value.i + 1 else Lookup(st.frames, scope, arg.name).value.i - 1)
    ensures r.Ok? && r.c.Normal? <==>
      arg.Identifier? && Lookup(st.frames, scope, arg.name).Some? && Lookup(st.frames, scope, arg.name).value.Int?
      && (op == "++" || op == "--")
      && SafeInteger(if op == "++" then Lookup(st.frames, scope, arg.name).value.i + 1 else Lookup(st.frames, scope, arg.name).value.i - 1)
    ensures r.Ok? && r.c.Normal? ==>
      var was := Lookup(st.frames, scope, arg.name).value.i;
      var now := if op == "++" then was + 1 else was - 1;
      var owner := Owner(st.frames, scope, arg.name).value;
      && r.c.value == Int(if prefix then now else was)
      && r.st == st.(frames := r.st.frames)
      && |r.st.frames| == |st.frames|
      && r.st.frames[owner] == st.frames[owner].(vars := st.frames[owner].vars[arg.name := Int(now)])
      && (forall j :: 0 <= j < |st.frames| && j != owner ==> r.st.frames[j] == st.frames[j])
      && Lookup(r.st.frames, scope, arg.name) == Some(Int(now))
      && (forall y, j: nat :: y != arg.name ==> Lookup(r.st.frames, j, y) == Lookup(st.frames, j, y))
    ensures r.Ok? && r.c.Threw? ==> (r.st == st && r.c.thrown == (
      if !arg.Identifier? then Exn(Error("UpdateExpression supporta solo Identifier come argomento"))
      else if Lookup(st.frames, scope, arg.name).None? then
        if ObjectProtoName(arg.name) then Exn(TypeError("UpdateExpression supporta solo numeri. Got: " + InheritedTypeOf(arg.name)))
        else Exn(ReferenceError("Variabile non definita: " + arg.name))
      else if !Lookup(st.frames, scope, arg.name).value.Int? then
        Exn(TypeError("UpdateExpression supporta solo numeri. Got: " + TypeOf(Lookup(st.frames, scope, arg.name).value)))
      else Exn(Error("Unsupported update operator: " + op))))
  {
    if !arg.Identifier? then Raise(st, Error("UpdateExpression supporta solo Identifier come argomento"))
    else match Lookup(st.frames, scope, arg.name)
      case None =>
        if ObjectProtoName(arg.name) then Raise(st, TypeError("UpdateExpression supporta solo numeri. Got: " + InheritedTypeOf(arg.name)))
        else Raise(st, ReferenceError("Variabile non definita: " + arg.name))
      case Some(v) =>
        if !v.Int? then Raise(st, TypeError("UpdateExpression supporta solo numeri. Got: " + TypeOf(v)))
        else if op != "++" && op != "--" then Raise(st, Error("Unsupported update operator: " + op))
        else
          var now := if op == "++" then v.i + 1 else v.i - 1;
          if !SafeInteger(now) then Stuck("integer beyond Number.MAX_SAFE_INTEGER")
          else
          assert scope < |st.frames|;
          SetVarEffect(st.frames, scope, arg.name, Int(now));
          Ok(Normal(Int(if prefix then now else v.i)), st.(frames := SetVar(st.frames, scope, arg.name, Int(now))))
  }

  /** The property key of a member expression when it is not computed: `property.name`, of a plain or a private name. */
  function StaticKey(p: Node): Value {
    if p.Identifier? || p.PrivateIdentifier? then Str(p.name) else Undefined
  }

  /** The iterable protocol for `for...of`: element `i` of an array or a string, if there is one. */
  function IterAt(st: State, coll: Value, i: nat): Option<Value> {
    match coll
    case Arr(a) => if i < ArrayLen(st, a) then Some(ArrayAt(st, a, i)) else None
    case Str(s) => if i < |s| then Some(Str([s[i]])) else None
    case _ => None
  }

  /** The spread of an iterable into an array literal. */
  function Spread(st: State, v: Value): seq<Value>
    requires IsIterable(v)
  {
    match v
    case Arr(a) => if a < |st.arrays| then st.arrays[a] else []
    case Str(s) => Chars(s)
  }

  function ToStrs(vs: seq<Value>): (r: Option<seq<string>>)
    ensures r.Some? ==> |r.value| == |vs| && forall i :: 0 <= i < |vs| ==> ToStr(vs[i]) == Some(r.value[i])
    ensures r.None? ==> exists i :: 0 <= i < |vs| && ToStr(vs[i]).None?
  {
    if vs == [] then Some([])
    else match (ToStr(vs[0]), ToStrs(vs[1..]))
      case (Some(s), Some(ss)) => Some([s] + ss)
      case (None, _) => None
      case (_, None) => assert forall i :: 0 <= i < |vs| - 1 ==> vs[1..][i] == vs[i + 1]; None
  }

  /** The array callbacks whose loop the interpreter writes itself. */
  const CombinatorNames: set<string> := {"find", "findIndex", "some", "every", "filter", "map", "reduce", "forEach"}

  // ---------------------------------------------------------------------
  // The evaluator

  function Exec(n: Node, scope: nat, st: State, fuel: nat): (r: Res)
    ensures r.Sound() && r.From(st)
    decreases fuel, 1
  {
    if fuel == 0 then Stuck("out of fuel")
    else match n
    case Empty => Ok(Normal(Undefined), st)
    case Program(ss) => ExecStmts(ss, scope, Hoist(ss, scope, st), Undefined, fuel)
    case ExpressionStatement(e) => Exec(e, scope, st, fuel - 1)
    case Literal(lit) =>
      (match lit
        case LNull => Ok(Normal(Null), st)
        case LBool(b) => Ok(Normal(Bool(b)), st)
        case LNum(i) => Ok(Normal(Int(i)), st)
        case LStr(s) => Ok(Normal(Str(s)), st)
        case LRegex(_, _) => Stuck("RegExp literal"))
    case Identifier(x) =>
      (match Lookup(st.frames, scope, x)
        case Some(v) => Ok(Normal(v), st)
        case None =>
          if ObjectProtoName(x) then Stuck("Object.prototype member read as a variable")
          else Raise(st, ReferenceError("Variabile non definita: " + x)))
    case UpdateExpression(op, prefix, arg) => UpdateStep(op, prefix, arg, scope, st)
    case NewExpression(callee, args) => ExecNew(callee, args, scope, st, fuel)
    case TemplateLiteral(qs, es) => ExecTemplate(qs, es, scope, st, fuel)
    case VariableDeclaration(ds) => DeclareAll(ds, scope, st, fuel)
    case ChainExpression(e) => Exec(e, scope, st, fuel - 1)
    case CallExpression(callee, args) => ExecCall(callee, args, scope, st, fuel)
    case MemberExpression(o, p, computed, optional) => ExecMember(o, p, computed, optional, scope, st, fuel)
    case ClassDeclaration(id, ms) => DeclareClass(id, ms, scope, st)
    case FunctionDeclaration(id, ps, body) =>
      var o := MakeClosure(st, PlainFn, ps, body, scope, true);
      Ok(Normal(Undefined), Declare(o.st, scope, id, o.value))
    case FunctionExpression(ps, body) =>
      var o := MakeClosure(st, PlainFn, ps, body, scope, true);
      Ok(Normal(o.value), o.st)
    case ArrowFunctionExpression(ps, body) =>
      var o := MakeClosure(st, ArrowFn, ps, body, scope, ContainsAwait(body));
      Ok(Normal(o.value), o.st)
    case AwaitExpression(a) => Exec(a, scope, st, fuel - 1)
    case BlockStatement(ss) => ExecBlock(ss, scope, st, fuel)
    case TryStatement(b, h, f) => ExecTry(b, h, f, scope, st, fuel)
    case ReturnStatement(a) => ExecReturn(a, scope, st, fuel)
    case IfStatement(t, c, a) => ExecCond(t, c, a, scope, st, fuel)
    case BinaryExpression(op, left, right) => ExecBinary(op, left, right, scope, st, fuel)
    case LogicalExpression(op, left, right) => ExecLogical(op, left, right, scope, st, fuel)
    case UnaryExpression(op, a) => ExecUnary(op, a, scope, st, fuel)
    case AssignmentExpression(op, left, right) => ExecAssign(op, left, right, scope, st, fuel)
    case WhileStatement(t, body) => WhileLoop(t, body, scope, st, fuel)
    case BreakStatement => Ok(Threw(Exn(BreakSignal)), st)
    case ContinueStatement => Ok(Threw(Exn(ContinueSignal)), st)
    case ConditionalExpression(t, c, a) => ExecCond(t, c, a, scope, st, fuel)
    case ArrayExpression(es) => ExecArray(es, scope, st, fuel)
    case ObjectExpression(ps) => ExecObject(ps, scope, st, fuel)
    case ForStatement(init, t, u, body) => ExecFor(init, t, u, body, scope, st, fuel)
    case ForOfStatement(left, right, body) => ExecForOf(left, right, body, scope, st, fuel)
    case _ => Raise(st, Error("Unsupported AST node type: " + TypeName(n)))
  }

  /** A template literal: the expressions' values converted to strings and interleaved with the quasis. */
  function ExecTemplate(qs: seq<string>, es: seq<Node>, scope: nat, st: State, fuel: nat): (r: Res)
    ensures r.Sound() && r.From(st)
    decreases fuel, 0
  {
    if fuel == 0 then Stuck("out of fuel")
    else
      var g :- EvalList(es, [], scope, st, fuel - 1);
      match ToStrs(g.val)
      case Some(ss) => Ok(Normal(Str(TemplateJoin(qs, ss))), g.st)
      case None => Stuck("string conversion of an object in a template")
  }

  /** `return e` throws a return signal carrying the value of `e`. */
  function ExecReturn(a: Node, scope: nat, st: State, fuel: nat): (r: Res)
    ensures r.Sound() && r.From(st)
    decreases fuel, 0
  {
    if fuel == 0 then Stuck("out of fuel")
    else
      var o :- Exec(a, scope, st, fuel - 1);
      Ok(Threw(Exn(ReturnSignal(o.value))), o.st)
  }

  /** `if` and `?:`: the test, then the branch its truthiness picks. */
  function ExecCond(t: Node, c: Node, a: Node, scope: nat, st: State, fuel: nat): (r: Res)
    ensures r.Sound() && r.From(st)
    decreases fuel, 0
  {
    if fuel == 0 then Stuck("out of fuel")
    else
      var o :- Exec(t, scope, st, fuel - 1);
      if Truthy(o.value) then Exec(c, scope, o.st, fuel - 1) else Exec(a, scope, o.st, fuel - 1)
  }

  /** A binary expression: both operands, left first, then the operator. */
  function ExecBinary(op: string, left: Node, right: Node, scope: nat, st: State, fuel: nat): (r: Res)
    ensures r.Sound() && r.From(st)
    decreases fuel, 0
  {
    if fuel == 0 then Stuck("out of fuel")
    else
      var l :- Exec(left, scope, st, fuel - 1);
      var rt :- Exec(right, scope, l.st, fuel - 1);
      match Binary(op, l.value, rt.value)
      case Val(v) => Ok(Normal(v), rt.st)
      case Unsupported => Raise(rt.st, Error("Unsupported operator: " + op))
      case Unmodelled => Stuck("operator " + op)
  }

  function ExecUnary(op: string, a: Node, scope: nat, st: State, fuel: nat): (r: Res)
    ensures r.Sound() && r.From(st)
    decreases fuel, 0
  {
    if fuel == 0 then Stuck("out of fuel")
    else
      var o :- Exec(a, scope, st, fuel - 1);
      match Unary(op, o.value)
      case Val(v) => Ok(Normal(v), o.st)
      case Unsupported => Raise(o.st, Error("Unsupported unary operator: " + op))
      case Unmodelled => Stuck("operator " + op)
  }

  /** An array literal: a new array of the elements, spreads expanded. */
  function ExecArray(es: seq<Node>, scope: nat, st: State, fuel: nat): (r: Res)
    ensures r.Sound() && r.From(st)
    decreases fuel, 0
  {
    if fuel == 0 then Stuck("out of fuel")
    else
      var g :- ArrayElems(es, [], scope, st, fuel - 1);
      var (st', v) := NewArray(g.st, g.val);
      Ok(Normal(v), st')
  }

  /** An object literal: a new record of the properties, spreads merged. */
  function ExecObject(ps: seq<Node>, scope: nat, st: State, fuel: nat): (r: Res)
    ensures r.Sound() && r.From(st)
    decreases fuel, 0
  {
    if fuel == 0 then Stuck("out of fuel")
    else
      var g :- ObjectProps(ps, map[], scope, st, fuel - 1);
      var (st', id) := NewObject(g.st, g.val, None);
      Ok(Normal(Rec(id)), st')
  }

  /** `for (init; test; update) body`: the initialiser once, then the loop. */
  function ExecFor(init: Node, t: Node, u: Node, body: Node, scope: nat, st: State, fuel: nat): (r: Res)
    ensures r.Sound() && r.From(st)
    decreases fuel, 0
  {
    if fuel == 0 then Stuck("out of fuel")
    else
      var o :- Exec(init, scope, st, fuel - 1);
      ForLoop(t, u, body, scope, o.st, fuel - 1)
  }

  /** `&&`, `||`, `??`: the right operand is evaluated only when the left one does not decide. */
  function ExecLogical(op: string, left: Node, right: Node, scope: nat, st: State, fuel: nat): (r: Res)
    ensures r.Sound() && r.From(st)
    decreases fuel, 0
  {
    if fuel == 0 then Stuck("out of fuel")
    else
      var l :- Exec(left, scope, st, fuel - 1);
      match LogicalStep(op, l.value)
      case Decided(v) => Ok(Normal(v), l.st)
      case EvalRight => Exec(right, scope, l.st, fuel - 1)
      case UnsupportedLogic => Raise(l.st, Error("Unsupported logical operator: " + op))
  }

  /** The statements of a program: the last value, or the value of a `return` at top level. */
  function ExecStmts(ss: seq<Node>, scope: nat, st: State, last: Value, fuel: nat): (r: Res)
    ensures r.Sound() && r.From(st)
    decreases fuel, 0
  {
    if fuel == 0 then Stuck("out of fuel")
    else if ss == [] then Ok(Normal(last), st)
    else match Exec(ss[0], scope, st, fuel - 1)
      case Stuck(why) => Stuck(why)
      case Ok(Normal(v), st1) => ExecStmts(ss[1..], scope, st1, v, fuel - 1)
      case Ok(Threw(e), st1) => FnExit(st1, Threw(e))
  }

  /**
   * A block: its statements in the current frame; a statement whose value is
   * truthy and carries a truthy `__return` is thrown as a return signal.
   */
  function ExecBlock(ss: seq<Node>, scope: nat, st: State, fuel: nat): (r: Res)
    ensures r.Sound() && r.From(st)
    decreases fuel, 0
  {
    if fuel == 0 then Stuck("out of fuel")
    else if ss == [] then Ok(Normal(Undefined), st)
    else
      var o :- Exec(ss[0], scope, st, fuel - 1);
      if !Truthy(o.value) then ExecBlock(ss[1..], scope, o.st, fuel - 1)
      else match Flag(o.st, o.value, ReturnFlag)
        case Some(true) => Ok(Threw(o.value), o.st)
        case Some(false) => ExecBlock(ss[1..], scope, o.st, fuel - 1)
        case None => Stuck("reading __return of a statement value")
  }

  /**
   * `try`: whatever the block throws (a signal included) goes to the
   * handler, in a new frame binding the parameter; without a handler it is
   * dropped.  A finalizer runs after either, and only its own throw
   * replaces the outcome.
   */
  function ExecTry(b: Node, h: Option<Catch>, f: Node, scope: nat, st: State, fuel: nat): (r: Res)
    ensures r.Sound() && r.From(st)
    decreases fuel, 0
  {
    if fuel == 0 then Stuck("out of fuel")
    else
      var pending :=
        match Exec(b, scope, st, fuel - 1)
        case Stuck(why) => Stuck(why)
        case Ok(Normal(v), st1) => Ok(Normal(v), st1)
        case Ok(Threw(e), st1) =>
          (match h
            case None => Ok(Normal(Undefined), st1)
            case Some(Catch(param, body)) =>
              var vars := if param.Identifier? && param.name != "" then map[param.name := e] else map[];
              var (st2, frame) := NewFrame(st1, vars, scope);
              Exec(body, frame, st2, fuel - 1));
      if pending.Stuck? || f.Empty? then pending
      else match Exec(f, scope, pending.st, fuel - 1)
        case Stuck(why) => Stuck(why)
        case Ok(Threw(e), st3) => Ok(Threw(e), st3)
        case Ok(Normal(_), st3) => Ok(pending.c, st3)
  }

  /** `while (test) body` as the interpreter runs it: nothing the body throws is caught. */
  function WhileLoop(t: Node, body: Node, scope: nat, st: State, fuel: nat): (r: Res)
    ensures r.Sound() && r.From(st)
    decreases fuel, 0
  {
    if fuel == 0 then Stuck("out of fuel")
    else
      var o :- Exec(t, scope, st, fuel - 1);
      if !Truthy(o.value) then Ok(Normal(Undefined), o.st)
      else
        var ob :- Exec(body, scope, o.st, fuel - 1);
        WhileLoop(t, body, scope, ob.st, fuel - 1)
  }

  /** The loop of `for (init; test; update) body`: a body that throws a break signal ends it. */
  function ForLoop(t: Node, u: Node, body: Node, scope: nat, st: State, fuel: nat): (r: Res)
    ensures r.Sound() && r.From(st)
    decreases fuel, 0
  {
    if fuel == 0 then Stuck("out of fuel")
    else
      var o :- Exec(t, scope, st, fuel - 1);
      if !Truthy(o.value) then Ok(Normal(Undefined), o.st)
      else match Exec(body, scope, o.st, fuel - 1)
        case Stuck(why) => Stuck(why)
        case Ok(Threw(e), st1) =>
          (match Flag(st1, e, BreakFlag)
            case Some(true) => Ok(Normal(Undefined), st1)
            case Some(false) => Ok(Threw(e), st1)
            case None => Stuck("reading __break of a thrown value"))
        case Ok(Normal(_), st1) =>
          var ou :- Exec(u, scope, st1, fuel - 1);
          ForLoop(t, u, body, scope, ou.st, fuel - 1)
  }

  /** `for (left of right) body`: the collection must be iterable. */
  function ExecForOf(left: Node, right: Node, body: Node, scope: nat, st: State, fuel: nat): (r: Res)
    ensures r.Sound() && r.From(st)
    decreases fuel, 0
  {
    if fuel == 0 then Stuck("out of fuel")
    else
      var o :- Exec(right, scope, st, fuel - 1);
      if !IsIterable(o.value) then Raise(o.st, TypeError("L'oggetto nel for...of non è iterabile"))
      else ForOfLoop(left, o.value, 0, body, scope, o.st, fuel - 1)
  }

  /** The loop variable of `for (left of ...)`: `declarations[0].id.name`, or the identifier's name. */
  function ForOfName(left: Node): Option<string> {
    match left
    case VariableDeclaration(ds) => if ds == [] then None else Some(ParamKey(ds[0].id))
    case Identifier(x) => Some(x)
    case _ => None
  }

  /**
   * `for (left of coll) body` from element `i` on: each element in a new
   * frame binding the loop variable; break and continue signals from the
   * body end the loop or the iteration.
   */
  function ForOfLoop(left: Node, coll: Value, i: nat, body: Node, scope: nat, st: State, fuel: nat): (r: Res)
    ensures r.Sound() && r.From(st)
    decreases fuel, 0
  {
    if fuel == 0 then Stuck("out of fuel")
    else match IterAt(st, coll, i)
      case None => Ok(Normal(Undefined), st)
      case Some(el) =>
        var (st1, frame) := NewFrame(st, map[], scope);
        if left.VariableDeclaration? && left.declarations == [] then
          Raise(st1, TypeError("Cannot read properties of undefined (reading 'id')"))
        else if ForOfName(left).None? then Raise(st1, Error("Tipo non supportato in ForOfStatement.left"))
        else
          var st2 := Declare(st1, frame, ForOfName(left).value, el);
          match Exec(body, frame, st2, fuel - 1)
          case Stuck(why) => Stuck(why)
          case Ok(Normal(_), st3) => ForOfLoop(left, coll, i + 1, body, scope, st3, fuel - 1)
          case Ok(Threw(e), st3) =>
            match Flag(st3, e, BreakFlag)
            case None => Stuck("reading __break of a thrown value")
            case Some(true) => Ok(Normal(Undefined), st3)
            case Some(false) =>
              match Flag(st3, e, ContinueFlag)
              case None => Stuck("reading __continue of a thrown value")
              case Some(true) => ForOfLoop(left, coll, i + 1, body, scope, st3, fuel - 1)
              case Some(false) => Ok(Threw(e), st3)
  }

  /** `let`/`const`/`var`: each declarator's initialiser (undefined when absent), bound by its pattern. */
  function DeclareAll(ds: seq<Declarator>, scope: nat, st: State, fuel: nat): (r: Res)
    ensures r.Sound() && r.From(st)
    decreases fuel, 0
  {
    if fuel == 0 then Stuck("out of fuel")
    else if ds == [] then Ok(Normal(Undefined), st)
    else
      var o :- Exec(ds[0].init, scope, st, fuel - 1);
      var b :- BindPattern(ds[0].id, o.value, scope, o.st, fuel - 1);
      DeclareAll(ds[1..], scope, b.st, fuel - 1)
  }

  /** Expressions evaluated one after the other, their values appended to `acc`. */
  function EvalList(es: seq<Node>, acc: seq<Value>, scope: nat, st: State, fuel: nat): (r: Step<seq<Value>>)
    ensures r.Sound() && r.From(st)
    ensures r.Done? ==> |r.val| == |acc| + |es|
    decreases fuel, 0
  {
    if fuel == 0 then Fail(Stuck("out of fuel"))
    else if es == [] then Done(acc, st)
    else
      var o := Exec(es[0], scope, st, fuel - 1);
      if o.IsFailure() then Fail(o)
      else EvalList(es[1..], acc + [o.c.value], scope, o.st, fuel - 1)
  }

  /** Call arguments where a spread element must be an array. */
  function EvalSpreadArgs(es: seq<Node>, acc: seq<Value>, scope: nat, st: State, fuel: nat): (r: Step<seq<Value>>)
    ensures r.Sound() && r.From(st)
    decreases fuel, 0
  {
    if fuel == 0 then Fail(Stuck("out of fuel"))
    else if es == [] then Done(acc, st)
    else
      var isSpread := es[0].SpreadElement?;
      var o := Exec(if isSpread then es[0].argument else es[0], scope, st, fuel - 1);
      if o.IsFailure() then Fail(o)
      else if !isSpread then EvalSpreadArgs(es[1..], acc + [o.c.value], scope, o.st, fuel - 1)
      else if !o.c.value.Arr? then Fail(Raise(o.st, TypeError("SpreadElement deve essere un array")))
      else EvalSpreadArgs(es[1..], acc + Spread(o.st, o.c.value), scope, o.st, fuel - 1)
  }

  /** The elements of an array literal; a spread element must be iterable. */
  function ArrayElems(es: seq<Node>, acc: seq<Value>, scope: nat, st: State, fuel: nat): (r: Step<seq<Value>>)
    ensures r.Sound() && r.From(st)
    decreases fuel, 0
  {
    if fuel == 0 then Fail(Stuck("out of fuel"))
    else if es == [] then Done(acc, st)
    else if es[0].Empty? then Fail(Raise(st, TypeError("Cannot read properties of null (reading 'type')")))
    else
      var isSpread := es[0].SpreadElement?;
      var o := Exec(if isSpread then es[0].argument else es[0], scope, st, fuel - 1);
      if o.IsFailure() then Fail(o)
      else if !isSpread then ArrayElems(es[1..], acc + [o.c.value], scope, o.st, fuel - 1)
      else if !IsIterable(o.c.value) then Fail(Raise(o.st, TypeError("SpreadElement in array deve essere iterabile")))
      else ArrayElems(es[1..], acc + Spread(o.st, o.c.value), scope, o.st, fuel - 1)
  }

  /** The properties of an object literal, merged into `acc` in order. */
  function ObjectProps(ps: seq<Node>, acc: map<string, Value>, scope: nat, st: State, fuel: nat): (r: Step<map<string, Value>>)
    ensures r.Sound() && r.From(st)
    decreases fuel, 0
  {
    if fuel == 0 then Fail(Stuck("out of fuel"))
    else if ps == [] then Done(acc, st)
    else match ps[0]
      case SpreadElement(a) =>
        var o := Exec(a, scope, st, fuel - 1);
        if o.IsFailure() then Fail(o)
        else if TypeOf(o.c.value) != "object" || o.c.value == Null then
          Fail(Raise(o.st, TypeError("SpreadElement in object deve essere un oggetto")))
        else ObjectProps(ps[1..], acc + OwnEntries(o.st, o.c.value), scope, o.st, fuel - 1)
      case Property(k, v) =>
        var ko := if k.Identifier? then Ok(Normal(Str(k.name)), st) else Exec(k, scope, st, fuel - 1);
        if ko.IsFailure() then Fail(ko)
        else
          var vo := Exec(v, scope, ko.st, fuel - 1);
          if vo.IsFailure() then Fail(vo)
          else (match ToStr(ko.c.value)
            case Some(key) =>
              if Blocked(false, key) then Fail(Stuck("__proto__ setter"))
              else ObjectProps(ps[1..], acc[key := vo.c.value], scope, vo.st, fuel - 1)
            case None => Fail(Stuck("string conversion of an object key")))
      case _ => Fail(Raise(st, Error("Unsupported object property type: " + TypeName(ps[0]))))
  }

  /** The key of a member access: the evaluated property when computed, else `property.name`. */
  function MemberKey(p: Node, computed: bool, scope: nat, st: State, fuel: nat): (r: Res)
    ensures r.Sound() && r.From(st)
    decreases fuel, 0
  {
    if fuel == 0 then Stuck("out of fuel")
    else if computed then Exec(p, scope, st, fuel - 1)
    else Ok(Normal(StaticKey(p)), st)
  }

  /**
   * `obj.prop` and `obj?.prop`: with `?.`, a throw while evaluating the
   * object, or a nullish object, gives undefined.  A function read off a
   * non-array is returned bound to the object.
   */
  function ExecMember(o: Node, p: Node, computed: bool, optional: bool, scope: nat, st: State, fuel: nat): (r: Res)
    ensures r.Sound() && r.From(st)
    decreases fuel, 0
  {
    if fuel == 0 then Stuck("out of fuel")
    else match Exec(o, scope, st, fuel - 1)
      case Stuck(why) => Stuck(why)
      case Ok(Threw(e), st1) => if optional then Ok(Normal(Undefined), st1) else Ok(Threw(e), st1)
      case Ok(Normal(obj), st1) =>
        if optional && Nullish(obj) then Ok(Normal(Undefined), st1)
        else
          var k :- MemberKey(p, computed, scope, st1, fuel - 1);
          if Nullish(obj) then
            (match ToStr(k.value)
              case Some(ks) => Raise(k.st, TypeError("Impossibile accedere a proprietà '" + ks + "' di " + ToStr(obj).value))
              case None => Stuck("string conversion of a property key"))
          else match GetProp(k.st, obj, k.value)
            case None => Stuck("host member")
            case Some(Closure(f)) =>
              if obj.Arr? then Stuck("array method wrapper")
              else
                var (st2, b) := NewCallable(k.st, Bound(f, obj));
                Ok(Normal(Closure(b)), st2)
            case Some(v) => Ok(Normal(v), k.st)
  }

  /** The message of the TypeError `new` throws on a value that is not a function. */
  function NotConstructorMessage(callee: Node, v: Value): string {
    "NewExpression: '" + TypeName(callee) + "' non è una funzione costruttrice. Got: " + TypeOf(v)
  }

  /** `new callee(args)`: only a class (or a method bound from one) constructs. */
  function ExecNew(callee: Node, args: seq<Node>, scope: nat, st: State, fuel: nat): (r: Res)
    ensures r.Sound() && r.From(st)
    decreases fuel, 0
  {
    if fuel == 0 then Stuck("out of fuel")
    else
      var c :- Exec(callee, scope, st, fuel - 1);
      var g :- EvalList(args, [], scope, c.st, fuel - 1);
      if !c.value.Closure? then
        Raise(g.st, TypeError(NotConstructorMessage(callee, c.value)))
      else Construct(c.value.fn, g.val, g.st, fuel - 1)
  }

  function Construct(f: nat, args: seq<Value>, st: State, fuel: nat): (r: Res)
    ensures r.Sound() && r.From(st)
    decreases fuel, 0
  {
    if fuel == 0 then Stuck("out of fuel")
    else if f >= |st.callables| then Stuck("dangling callable")
    else match st.callables[f]
      case Fun(_, _, _, _, _) => Raise(st, TypeError("not a constructor"))
      case ClassFn(ctor, _, proto) => Instantiate(ctor, proto, args, st, fuel - 1)
      case Bound(t, _) => Construct(t, args, st, fuel - 1)
  }

  /**
   * The class function: a new instance delegating to the prototype, the
   * constructor method applied to it.  The constructor's outcome is not
   * awaited, so a throw there is lost; the instance is the result.
   */
  function Instantiate(ctor: Option<nat>, proto: nat, args: seq<Value>, st: State, fuel: nat): (r: Res)
    ensures r.Sound() && r.From(st)
    decreases fuel, 0
  {
    if fuel == 0 then Stuck("out of fuel")
    else
      var (st1, inst) := NewObject(st, map[], Some(proto));
      match ctor
      case None => Ok(Normal(Rec(inst)), st1)
      case Some(c) =>
        match Apply(c, Rec(inst), args, st1, fuel - 1)
        case Stuck(why) => Stuck(why)
        case Ok(_, st2) => Ok(Normal(Rec(inst)), st2)
  }

  /** Calling callable `f` with `this` = `receiver`. */
  function Apply(f: nat, receiver: Value, args: seq<Value>, st: State, fuel: nat): (r: Res)
    ensures r.Sound() && r.From(st)
    decreases fuel, 0
  {
    if fuel == 0 then Stuck("out of fuel")
    else if f >= |st.callables| then Stuck("dangling callable")
    else match st.callables[f]
      case Fun(kind, ps, body, env, _) =>
        var (st1, frame) := NewFrame(st, CallVars(st, kind, ps, env, receiver, args), env);
        (match Exec(body, frame, st1, fuel - 1)
          case Stuck(why) => Stuck(why)
          case Ok(c, st2) => FnExit(st2, c))
      case ClassFn(ctor, _, proto) => Instantiate(ctor, proto, args, st, fuel - 1)
      case Bound(t, bound) => Apply(t, bound, args, st, fuel - 1)
  }

  /** A call expression: a member callee picks the receiver first; any other callee is called with `this` undefined. */
  function ExecCall(callee: Node, args: seq<Node>, scope: nat, st: State, fuel: nat): (r: Res)
    ensures r.Sound() && r.From(st)
    decreases fuel, 0
  {
    if fuel == 0 then Stuck("out of fuel")
    else if callee.MemberExpression? then
      var o :- Exec(callee.obj, scope, st, fuel - 1);
      ReceiverCall(o.value, callee, args, scope, o.st, fuel - 1)
    else
      var fo :- Exec(callee, scope, st, fuel - 1);
      var g :- EvalList(args, [], scope, fo.st, fuel - 1);
      if !fo.value.Closure? then Raise(g.st, TypeError("Callee non è una funzione"))
      else Apply(fo.value.fn, Undefined, g.val, g.st, fuel - 1)
  }

  /**
   * `obj.prop(args)` once `obj` is known: a string's `includes` is host
   * code (any other string method goes the general way, evaluating the
   * property again); arrays have their own path.
   */
  function ReceiverCall(obj: Value, m: Node, args: seq<Node>, scope: nat, st: State, fuel: nat): (r: Res)
    requires m.MemberExpression?
    ensures r.Sound() && r.From(st)
    decreases fuel, 0
  {
    if fuel == 0 then Stuck("out of fuel")
    else match obj
      case Str(_) =>
        var k :- MemberKey(m.property, m.computed, scope, st, fuel - 1);
        if k.value == Str("includes") then Stuck("String.prototype.includes")
        else MethodCall(obj, m, args, scope, k.st, fuel - 1)
      case Arr(a) => ArrayCall(a, m, args, scope, st, fuel - 1)
      case _ => MethodCall(obj, m, args, scope, st, fuel - 1)
  }

  /** `obj.prop(args)` and `obj?.prop(args)` on a receiver that is not an array. */
  function MethodCall(obj: Value, m: Node, args: seq<Node>, scope: nat, st: State, fuel: nat): (r: Res)
    requires m.MemberExpression?
    ensures r.Sound() && r.From(st)
    decreases fuel, 0
  {
    if fuel == 0 then Stuck("out of fuel")
    else if m.optional && Nullish(obj) then Ok(Normal(Undefined), st)
    else
      var k :- MemberKey(m.property, m.computed, scope, st, fuel - 1);
      match ToStr(k.value)
      case None => Stuck("string conversion of a property key")
      case Some(ks) =>
        if Nullish(obj) then Raise(k.st, TypeError("Impossibile accedere al metodo '" + ks + "' di " + ToStr(obj).value))
        else match GetProp(k.st, obj, k.value)
          case None => Stuck("host method " + ks)
          case Some(fn) =>
            if m.optional && fn == Undefined then Ok(Normal(Undefined), k.st)
            else if !fn.Closure? then Raise(k.st, TypeError("'" + ks + "' non è una funzione"))
            else
              var g :- EvalSpreadArgs(args, [], scope, k.st, fuel - 1);
              Apply(fn.fn, obj, g.val, g.st, fuel - 1)
  }

  /**
   * `arr.prop(args)`: a function stored in the array is applied to it; of
   * the `Array.prototype` methods, the callback combinators run here when
   * the first argument is a function, the rest are host code.
   */
  function ArrayCall(a: nat, m: Node, args: seq<Node>, scope: nat, st: State, fuel: nat): (r: Res)
    requires m.MemberExpression?
    ensures r.Sound() && r.From(st)
    decreases fuel, 0
  {
    if fuel == 0 then Stuck("out of fuel")
    else
      var k :- MemberKey(m.property, m.computed, scope, st, fuel - 1);
      match ToStr(k.value)
      case None => Stuck("string conversion of a property key")
      case Some(ks) =>
        match GetProp(k.st, Arr(a), k.value)
        case Some(Closure(f)) =>
          var g :- EvalSpreadArgs(args, [], scope, k.st, fuel - 1);
          Apply(f, Arr(a), g.val, g.st, fuel - 1)
        case Some(_) => Raise(k.st, TypeError("'" + ks + "' non è una funzione su Array"))
        case None =>
          if ks == "__proto__" then Raise(k.st, TypeError("'" + ks + "' non è una funzione su Array"))
          else
            var g :- EvalSpreadArgs(args, [], scope, k.st, fuel - 1);
            if |g.val| > 0 && g.val[0].Closure? && ks in CombinatorNames then
              Combinator(ks, a, g.val[0].fn, g.val, g.st, fuel - 1)
            else Stuck("host array method " + ks)
  }

  /** The combinators; the callback's `this` is the second argument. */
  function Combinator(name: string, a: nat, cb: nat, args: seq<Value>, st: State, fuel: nat): (r: Res)
    requires name in CombinatorNames
    ensures r.Sound() && r.From(st)
    decreases fuel, 0
  {
    if fuel == 0 then Stuck("out of fuel")
    else
      var thisArg := ArgAt(args, 1);
      if name == "reduce" then
        if |args| >= 2 then Reduce(a, cb, thisArg, args[1], 0, st, fuel - 1)
        else if ArrayLen(st, a) == 0 then Raise(st, TypeError("Reduce of empty array with no initial value"))
        else Reduce(a, cb, thisArg, ArrayAt(st, a, 0), 1, st, fuel - 1)
      else if name == "forEach" then
        var o :- ForEach(a, cb, thisArg, 0, st, fuel - 1);
        Ok(Normal(Undefined), o.st)
      else
        var kind := KindOf(name);
        var n := ArrayLen(st, a);
        var g :- Scan(kind, a, cb, thisArg, 0, st, fuel - 1);
        match kind
        case FindKind => Ok(Normal(FindOf(g.val)), g.st)
        case FindIndexKind => Ok(Normal(FindIndexOf(g.val)), g.st)
        case SomeKind => Ok(Normal(SomeOf(g.val)), g.st)
        case EveryKind => Ok(Normal(EveryOf(g.val)), g.st)
        case FilterKind => var (st', v) := NewArray(g.st, FilterOf(g.val)); Ok(Normal(v), st')
        case MapKind => var (st', v) := NewArray(g.st, MapOf(g.val, n)); Ok(Normal(v), st')
  }

  /** `callCb`: the callback on element `i`; any throw counts as `false`. */
  function CallCb(cb: nat, thisArg: Value, el: Value, i: nat, a: nat, st: State, fuel: nat): (r: Res)
    ensures r.Sound() && r.From(st)
    ensures r.Ok? ==> r.c.Normal?
    ensures fuel > 0 ==>
      var ap := Apply(cb, thisArg, [el, Int(i), Arr(a)], st, fuel - 1);
      && (r.Stuck? <==> ap.Stuck?)
      && (ap.Ok? ==> r.st == ap.st && r.c.value == if ap.c.Normal? then ap.c.value else Bool(false))
    decreases fuel, 0
  {
    if fuel == 0 then Stuck("out of fuel")
    else match Apply(cb, thisArg, [el, Int(i), Arr(a)], st, fuel - 1)
      case Stuck(why) => Stuck(why)
      case Ok(Normal(v), st1) => Ok(Normal(v), st1)
      case Ok(Threw(_), st1) => Ok(Normal(Bool(false)), st1)
  }

  /**
   * Visit `v` is the callback call, with `fuel`, on its index in the state
   * before it: the index is below the array's length then, the verdict is
   * the call's value, and `after` is the element read once the call is over.
   */
  ghost predicate Called(cb: nat, thisArg: Value, a: nat, v: Visit<State>, fuel: nat)
    decreases fuel, 1
  {
    && v.index < ArrayLen(v.pre, a)
    && CallCb(cb, thisArg, ArrayAt(v.pre, a, v.index), v.index, a, v.pre, fuel) == Ok(Normal(v.verdict), v.post)
    && v.after == ArrayAt(v.post, a, v.index)
  }

  /**
   * The visits form a walk from index `i`, leading from state `st0` to state
   * `st`, the first callback call made with `fuel`: one call per index in
   * order, each in the state the previous one left, stopping only at the
   * last one; only an exhausted array ends a walk that did not stop.
   */
  ghost predicate Walked(kind: Kind, cb: nat, thisArg: Value, a: nat, i: nat, vs: seq<Visit<State>>, st0: State, st: State, fuel: nat)
    decreases fuel, 2
  {
    && |vs| <= fuel + 1
    && (forall j :: 0 <= j < |vs| ==> vs[j].index == i + j && Called(cb, thisArg, a, vs[j], fuel - j))
    && (forall j :: 0 <= j < |vs| - 1 ==> !Stops(kind, vs[j].verdict) && vs[j].post == vs[j + 1].pre)
    && (if vs == [] then st == st0 else vs[0].pre == st0 && vs[|vs| - 1].post == st)
    && ((vs == [] || !Stops(kind, vs[|vs| - 1].verdict)) ==> i + |vs| >= ArrayLen(st, a))
  }

  /**
   * The loop of `find`, `findIndex`, `some`, `every`, `filter` and `map`
   * from index `i`: the length and the elements are read afresh at every
   * step, since the callback may change the array.
   */
  function Scan(kind: Kind, a: nat, cb: nat, thisArg: Value, i: nat, st: State, fuel: nat): (r: Step<seq<Visit<State>>>)
    ensures r.Sound() && r.From(st)
    ensures r.Fail? ==> r.r.Stuck?
    ensures r.Done? ==> fuel > 0 && Walked(kind, cb, thisArg, a, i, r.val, st, r.st, fuel - 1)
    decreases fuel, 0
  {
    if fuel == 0 then Fail(Stuck("out of fuel"))
    else if i >= ArrayLen(st, a) then Done([], st)
    else match CallCb(cb, thisArg, ArrayAt(st, a, i), i, a, st, fuel - 1)
      case Stuck(why) => Fail(Stuck(why))
      case Ok(c, st1) =>
        var visit := Visit(i, c.value, ArrayAt(st1, a, i), st, st1);
        if Stops(kind, c.value) then Done([visit], st1)
        else match Scan(kind, a, cb, thisArg, i + 1, st1, fuel - 1)
          case Fail(why) => Fail(why)
          case Done(vs, st2) =>
            WalkedCons(kind, cb, thisArg, a, i, visit, vs, st, st2, fuel - 1);
            ExtendsTransitive(st, st1, st2);
            Done([visit] + vs, st2)
  }

  /** A non-stopping visit at `i` in front of a walk from `i + 1`, made with one unit of fuel less, is a walk from `i`. */
  lemma WalkedCons(kind: Kind, cb: nat, thisArg: Value, a: nat, i: nat, visit: Visit<State>, vs: seq<Visit<State>>, st0: State, st: State, fuel: nat)
    requires fuel > 0
    requires visit.index == i && !Stops(kind, visit.verdict) && visit.pre == st0
    requires Called(cb, thisArg, a, visit, fuel)
    requires Walked(kind, cb, thisArg, a, i + 1, vs, visit.post, st, fuel - 1)
    ensures Walked(kind, cb, thisArg, a, i, [visit] + vs, st0, st, fuel)
    decreases fuel, 3
  {
    var ws := [visit] + vs;
    assert forall j :: 1 <= j < |ws| ==> ws[j] == vs[j - 1];
    forall j | 0 <= j < |ws|
      ensures ws[j].index == i + j && Called(cb, thisArg, a, ws[j], fuel - j)
    {
      if j > 0 {
        assert Called(cb, thisArg, a, vs[j - 1], fuel - 1 - (j - 1));
      }
    }
  }

  /** The loop of `reduce` from index `i` with accumulator `acc`; a throw from the callback propagates. */
  function Reduce(a: nat, cb: nat, thisArg: Value, acc: Value, i: nat, st: State, fuel: nat): (r: Res)
    ensures r.Sound() && r.From(st)
    decreases fuel, 0
  {
    if fuel == 0 then Stuck("out of fuel")
    else if i >= ArrayLen(st, a) then Ok(Normal(acc), st)
    else
      var o :- Apply(cb, thisArg, [acc, ArrayAt(st, a, i), Int(i), Arr(a)], st, fuel - 1);
      Reduce(a, cb, thisArg, o.value, i + 1, o.st, fuel - 1)
  }

  /** The loop of `forEach` from index `i`; a throw from the callback propagates. */
  function ForEach(a: nat, cb: nat, thisArg: Value, i: nat, st: State, fuel: nat): (r: Res)
    ensures r.Sound() && r.From(st)
    decreases fuel, 0
  {
    if fuel == 0 then Stuck("out of fuel")
    else if i >= ArrayLen(st, a) then Ok(Normal(Undefined), st)
    else
      var o :- Apply(cb, thisArg, [ArrayAt(st, a, i), Int(i), Arr(a)], st, fuel - 1);
      ForEach(a, cb, thisArg, i + 1, o.st, fuel - 1)
  }

  /** `=` and the compound assignments: the target is resolved first, then the right-hand side is evaluated. */
  function ExecAssign(op: string, left: Node, right: Node, scope: nat, st: State, fuel: nat): (r: Res)
    ensures r.Sound() && r.From(st)
    decreases fuel, 0
  {
    if fuel == 0 then Stuck("out of fuel")
    else if left.Identifier? then AssignName(op, left.name, right, scope, st, fuel - 1)
    else if left.MemberExpression? then
      var ob :- Exec(left.obj, scope, st, fuel - 1);
      var k :- MemberKey(left.property, left.computed, scope, ob.st, fuel - 1);
      AssignMember(op, ob.value, k.value, right, scope, k.st, fuel - 1)
    else
        var v :- Exec(right, scope, st, fuel - 1);
        var b :- BindPattern(left, v.value, scope, v.st, fuel - 1);
        Ok(Normal(v.value), b.st)
  }

  /**
   * Assignment to a name.  The current value is read (undefined when no
   * frame has the name) before the right-hand side is evaluated.  A name the
   * root scope inherits from `Object.prototype` is host territory.
   */
  function AssignName(op: string, x: string, right: Node, scope: nat, st: State, fuel: nat): (r: Res)
    ensures r.Sound() && r.From(st)
    decreases fuel, 0
  {
    if fuel == 0 then Stuck("out of fuel")
    else if op == "=" then
      var v :- Exec(right, scope, st, fuel - 1);
      if RootInherits(v.st.frames, scope, x) then Stuck("write to Object.prototype through the scope")
      else Ok(Normal(v.value), v.st.(frames := SetVar(v.st.frames, scope, x, v.value)))
    else
      var curr := LookupOr(st.frames, scope, x);
      var rhs :- Exec(right, scope, st, fuel - 1);
      if RootInherits(st.frames, scope, x) then Stuck("Object.prototype member read as a variable")
      else match CompoundStep(op, curr, rhs.value)
      case Write(v) => Ok(Normal(v), rhs.st.(frames := SetVar(rhs.st.frames, scope, x, v)))
      case KeepCurrent => Ok(Normal(curr), rhs.st)
      case UnsupportedAssign => Raise(rhs.st, Error("Unsupported assignment operator: " + op))
      case UnmodelledAssign => Stuck("operator " + op)
  }

  /** Assignment to `obj[key]`, the object and key already evaluated. */
  function AssignMember(op: string, obj: Value, key: Value, right: Node, scope: nat, st: State, fuel: nat): (r: Res)
    ensures r.Sound() && r.From(st)
    decreases fuel, 0
  {
    if fuel == 0 then Stuck("out of fuel")
    else if op == "=" then
      var v :- Exec(right, scope, st, fuel - 1);
      StoreProp(obj, key, v.value, v.st)
    else if Nullish(obj) then
      (match ToStr(key)
        case Some(k) => Raise(st, TypeError("Cannot read properties of " + ToStr(obj).value + " (reading '" + k + "')"))
        case None => Stuck("string conversion of a property key"))
    else match GetProp(st, obj, key)
      case None => Stuck("host member")
      case Some(curr) =>
        var rhs :- Exec(right, scope, st, fuel - 1);
        match CompoundStep(op, curr, rhs.value)
        case Write(v) => StoreProp(obj, key, v, rhs.st)
        case KeepCurrent => Ok(Normal(curr), rhs.st)
        case UnsupportedAssign => Raise(rhs.st, Error("Unsupported assignment operator: " + op))
        case UnmodelledAssign => Stuck("operator " + op)
  }

  /** `obj[key] = v` as an assignment expression: its value is `v`. */
  function StoreProp(obj: Value, key: Value, v: Value, st: State): (r: Res)
    ensures r.Sound() && r.From(st)
  {
    match PutProp(st, obj, key, v)
    case Put(st') => Ok(Normal(v), st')
    case PutTypeError(msg) => Raise(st, TypeError(msg))
    case PutUnmodelled => Stuck("host property write")
  }

  /** `assignPattern(pattern, value, scope)`. */
  function BindPattern(pat: Node, v: Value, scope: nat, st: State, fuel: nat): (r: Res)
    ensures r.Sound() && r.From(st)
    ensures r.Ok? && r.c.Normal? ==> r.c.value == Undefined
    decreases fuel, 1
  {
    if fuel == 0 then Stuck("out of fuel")
    else if pat.Identifier? then
      if RootInherits(st.frames, scope, pat.name) then Stuck("write to Object.prototype through the scope")
      else Ok(Normal(Undefined), st.(frames := SetVar(st.frames, scope, pat.name, v)))
    else if pat.ArrayPattern? then
      var (st1, src) := if Nullish(v) then NewArray(st, []) else (st, v);
      BindElems(pat.elements, 0, src, scope, st1, fuel - 1)
    else if pat.ObjectPattern? then BindObject(pat.properties, v, scope, st, fuel)
    else Raise(st, Error("Unsupported pattern type: " + TypeName(pat)))
  }

  /**
   * An object pattern: a null or undefined source is treated as `{}`; the
   * properties are bound first, then a rest element receives the own
   * entries that were not picked.
   */
  function BindObject(ps: seq<Node>, v: Value, scope: nat, st: State, fuel: nat): (r: Res)
    requires fuel > 0
    ensures r.Sound() && r.From(st)
    ensures r.Ok? && r.c.Normal? ==> r.c.value == Undefined
    decreases fuel, 0
  {
    var (st1, src) := if Nullish(v) then var (s, id) := NewObject(st, map[], None); (s, Rec(id)) else (st, v);
    var g :- BindProps(ps, src, {}, scope, st1, fuel - 1);
    match FirstRest(ps)
    case None => Ok(Normal(Undefined), g.st)
    case Some(target) =>
      var (st2, id) := NewObject(g.st, RestOf(OwnEntries(g.st, src), g.val), None);
      BindPattern(target, Rec(id), scope, st2, fuel - 1)
  }

  /** The argument of the first rest element of an object pattern. */
  function FirstRest(ps: seq<Node>): (r: Option<Node>)
    ensures r.Some? <==> exists i :: 0 <= i < |ps| && ps[i].RestElement?
    ensures r.Some? ==> exists i :: (0 <= i < |ps| && ps[i].RestElement? && r.value == ps[i].argument
      && forall j :: 0 <= j < i ==> !ps[j].RestElement?)
  {
    if ps == [] then None
    else if ps[0].RestElement? then Some(ps[0].argument)
    else
      var r := FirstRest(ps[1..]);
      assert forall j :: 1 <= j < |ps| ==> ps[j] == ps[1..][j - 1];
      r
  }

  /** The elements of an array pattern from position `i`: holes are skipped, a rest element ends the pattern. */
  function BindElems(es: seq<Node>, i: nat, src: Value, scope: nat, st: State, fuel: nat): (r: Res)
    ensures r.Sound() && r.From(st)
    ensures r.Ok? && r.c.Normal? ==> r.c.value == Undefined
    decreases fuel, 0
  {
    if fuel == 0 then Stuck("out of fuel")
    else if i >= |es| then Ok(Normal(Undefined), st)
    else if es[i].Empty? then BindElems(es, i + 1, src, scope, st, fuel - 1)
    else if es[i].RestElement? then BindRest(es[i].argument, i, src, scope, st, fuel - 1)
    else
      var b :- BindElem(es[i], i, src, scope, st, fuel - 1);
      BindElems(es, i + 1, src, scope, b.st, fuel - 1)
  }

  /** A rest element at position `i` binds `arr.slice(i)`. */
  function BindRest(target: Node, i: nat, src: Value, scope: nat, st: State, fuel: nat): (r: Res)
    ensures r.Sound() && r.From(st)
    ensures r.Ok? && r.c.Normal? ==> r.c.value == Undefined
    decreases fuel, 0
  {
    if fuel == 0 then Stuck("out of fuel")
    else match SliceFrom(st, src, i)
      case Sliced(st1, rest) => BindPattern(target, rest, scope, st1, fuel - 1)
      case SliceTypeError => Raise(st, TypeError("arr.slice is not a function"))
      case SliceUnmodelled => Stuck("host slice")
  }

  /** Element `i` of an array pattern; a default is evaluated only when `arr[i]` is undefined. */
  function BindElem(el: Node, i: nat, src: Value, scope: nat, st: State, fuel: nat): (r: Res)
    ensures r.Sound() && r.From(st)
    ensures r.Ok? && r.c.Normal? ==> r.c.value == Undefined
    decreases fuel, 0
  {
    if fuel == 0 then Stuck("out of fuel")
    else if el.AssignmentPattern? then
      var d :- if ElemAt(st, src, i) == Undefined then Exec(el.right, scope, st, fuel - 1)
               else Ok(Normal(ElemAt(st, src, i)), st);
      BindPattern(el.left, d.value, scope, d.st, fuel - 1)
    else BindPattern(el, ElemAt(st, src, i), scope, st, fuel - 1)
  }

  /** The properties of an object pattern, collecting the keys they pick; entries that are not properties are skipped. */
  function BindProps(ps: seq<Node>, src: Value, picked: set<Value>, scope: nat, st: State, fuel: nat): (r: Step<set<Value>>)
    requires !Nullish(src)
    ensures r.Sound() && r.From(st)
    ensures r.Done? ==> picked <= r.val
    ensures r.Done? ==> forall j :: 0 <= j < |ps| && ps[j].Property? && ps[j].key.Identifier? ==> Str(ps[j].key.name) in r.val
    decreases fuel, 0
  {
    if fuel == 0 then Fail(Stuck("out of fuel"))
    else if ps == [] then Done(picked, st)
    else
      var k := if ps[0].Property? then BindProp(ps[0].key, ps[0].value, src, scope, st, fuel - 1) else Done(None, st);
      if k.Fail? then Fail(k.r)
      else
        var picked' := if k.val.Some? then picked + {k.val.value} else picked;
        var r := BindProps(ps[1..], src, picked', scope, k.st, fuel - 1);
        assert forall j :: 1 <= j < |ps| ==> ps[j] == ps[1..][j - 1];
        if r.Done? then ExtendsTransitive(st, k.st, r.st); r else r
  }

  /**
   * One property `key: target` of an object pattern: the key is the
   * identifier's name or the evaluated expression; a default applies only
   * when the value read is undefined.  The result is the key picked.
   */
  function BindProp(key: Node, target: Node, src: Value, scope: nat, st: State, fuel: nat): (r: Step<Option<Value>>)
    requires !Nullish(src)
    ensures r.Sound() && r.From(st)
    ensures r.Done? ==> r.val.Some? && (key.Identifier? ==> r.val.value == Str(key.name))
    decreases fuel, 0
  {
    if fuel == 0 then Fail(Stuck("out of fuel"))
    else
      var ko := if key.Identifier? then Ok(Normal(Str(key.name)), st) else Exec(key, scope, st, fuel - 1);
      if ko.IsFailure() then Fail(ko)
      else match GetProp(ko.st, src, ko.c.value)
        case None => Fail(Stuck("host member"))
        case Some(v) =>
          var d :=
            if target.AssignmentPattern? && v == Undefined then Exec(target.right, scope, ko.st, fuel - 1)
            else Ok(Normal(v), ko.st);
          if d.IsFailure() then Fail(d)
          else
            var b := BindPattern(if target.AssignmentPattern? then target.left else target, d.c.value, scope, d.st, fuel - 1);
            if b.IsFailure() then Fail(b) else Done(Some(ko.c.value), b.st)
  }

  // ---------------------------------------------------------------------
  // assignPattern as written.  `exec` is declared inside `executeAST`, so
  // the module-level `assignPattern` cannot reach it: where it would call
  // `exec` (an element default, a computed property key, a property
  // default) the name lookup fails with a ReferenceError.  The evaluator
  // above uses the corrected binder, which evaluates those expressions.

  /** The ReferenceError that a call to `exec` from `assignPattern` raises. */
  const ExecUnbound: Exception := ReferenceError("exec is not defined")

  /** The argument of an object pattern's rest element is part of the pattern. */
  lemma RestArgSmaller(pat: Node, target: Node)
    requires pat.ObjectPattern? && FirstRest(pat.properties) == Some(target)
    ensures target < pat
  {
    var i :| 0 <= i < |pat.properties| && pat.properties[i].RestElement? && target == pat.properties[i].argument;
    assert pat.properties[i] < pat;
  }

  /** `assignPattern(pattern, value, scope)` as written: never evaluates an expression. */
  function BindPatternAsWritten(pat: Node, v: Value, scope: nat, st: State): (r: Res)
    ensures r.Sound()
    ensures r.Ok? && r.c.Normal? ==> r.c.value == Undefined
    decreases pat, 1
  {
    if pat.Identifier? then
      if RootInherits(st.frames, scope, pat.name) then Stuck("write to Object.prototype through the scope")
      else Ok(Normal(Undefined), st.(frames := SetVar(st.frames, scope, pat.name, v)))
    else if pat.ArrayPattern? then
      var (st1, src) := if Nullish(v) then NewArray(st, []) else (st, v);
      BindElemsAsWritten(pat, 0, src, scope, st1)
    else if pat.ObjectPattern? then
      var (st1, src) := if Nullish(v) then var (s, id) := NewObject(st, map[], None); (s, Rec(id)) else (st, v);
      var g :- BindPropsAsWritten(pat, 0, src, {}, scope, st1);
      (match FirstRest(pat.properties)
        case None => Ok(Normal(Undefined), g.st)
        case Some(target) =>
          RestArgSmaller(pat, target);
          var (st2, id) := NewObject(g.st, RestOf(OwnEntries(g.st, src), g.val), None);
          BindPatternAsWritten(target, Rec(id), scope, st2))
    else Raise(st, Error("Unsupported pattern type: " + TypeName(pat)))
  }

  /** The elements of an array pattern from position `i`, as written. */
  function BindElemsAsWritten(pat: Node, i: nat, src: Value, scope: nat, st: State): (r: Res)
    requires pat.ArrayPattern?
    ensures r.Sound()
    ensures r.Ok? && r.c.Normal? ==> r.c.value == Undefined
    decreases pat, 0, |pat.elements| - i
  {
    if i >= |pat.elements| then Ok(Normal(Undefined), st)
    else if pat.elements[i].Empty? then BindElemsAsWritten(pat, i + 1, src, scope, st)
    else if pat.elements[i].RestElement? then
      match SliceFrom(st, src, i)
      case Sliced(st1, rest) => BindPatternAsWritten(pat.elements[i].argument, rest, scope, st1)
      case SliceTypeError => Raise(st, TypeError("arr.slice is not a function"))
      case SliceUnmodelled => Stuck("host slice")
    else
      var b :- BindElemAsWritten(pat.elements[i], i, src, scope, st);
      BindElemsAsWritten(pat, i + 1, src, scope, b.st)
  }

  /**
   * Element `i` of an array pattern, as written: a default whose element
   * is undefined raises the ReferenceError instead of being evaluated, and
   * nothing is bound.
   */
  function BindElemAsWritten(el: Node, i: nat, src: Value, scope: nat, st: State): (r: Res)
    ensures r.Sound()
    ensures r.Ok? && r.c.Normal? ==> r.c.value == Undefined
    ensures el.AssignmentPattern? && ElemAt(st, src, i) == Undefined ==> r == Ok(Threw(Exn(ExecUnbound)), st)
    ensures el.AssignmentPattern? && ElemAt(st, src, i) != Undefined ==>
      r == BindPatternAsWritten(el.left, ElemAt(st, src, i), scope, st)
    decreases el, 2
  {
    if el.AssignmentPattern? then
      if ElemAt(st, src, i) == Undefined then Raise(st, ExecUnbound)
      else BindPatternAsWritten(el.left, ElemAt(st, src, i), scope, st)
    else BindPatternAsWritten(el, ElemAt(st, src, i), scope, st)
  }

  /** The properties of an object pattern from position `j`, as written, collecting the keys they pick. */
  function BindPropsAsWritten(pat: Node, j: nat, src: Value, picked: set<Value>, scope: nat, st: State): (r: Step<set<Value>>)
    requires pat.ObjectPattern? && !Nullish(src)
    ensures r.Sound()
    decreases pat, 0, |pat.properties| - j
  {
    if j >= |pat.properties| then Done(picked, st)
    else if !pat.properties[j].Property? then BindPropsAsWritten(pat, j + 1, src, picked, scope, st)
    else
      var k := BindPropAsWritten(pat.properties[j].key, pat.properties[j].value, src, scope, st);
      if k.Fail? then Fail(k.r)
      else BindPropsAsWritten(pat, j + 1, src, picked + {k.val}, scope, k.st)
  }

  /**
   * One property `key: target` of an object pattern, as written: a key that
   * is not an identifier, and a default whose value is undefined, raise the
   * ReferenceError before anything is bound.
   */
  function BindPropAsWritten(key: Node, target: Node, src: Value, scope: nat, st: State): (r: Step<Value>)
    requires !Nullish(src)
    ensures r.Sound()
    ensures !key.Identifier? ==> r == Fail(Ok(Threw(Exn(ExecUnbound)), st))
    ensures key.Identifier? && target.AssignmentPattern? && GetProp(st, src, Str(key.name)) == Some(Undefined) ==>
      r == Fail(Ok(Threw(Exn(ExecUnbound)), st))
    ensures r.Done? ==> key.Identifier? && r.val == Str(key.name)
    decreases target, 2
  {
    if !key.Identifier? then Fail(Raise(st, ExecUnbound))
    else match GetProp(st, src, Str(key.name))
      case None => Fail(Stuck("host member"))
      case Some(v) =>
        if target.AssignmentPattern? && v == Undefined then Fail(Raise(st, ExecUnbound))
        else
          var b := BindPatternAsWritten(if target.AssignmentPattern? then target.left else target, v, scope, st);
          if b.IsFailure() then Fail(b) else Done(Str(key.name), b.st)
  }
}
