/**
 * The interpreter state: the frame store, the arrays and records the
 * program allocates, and the callables it creates.  Values refer to these by
 * id.  Also property read and write (`obj[key]`, `obj[key] = v`), own-key
 * enumeration (`Object.keys`) and `slice`, as the interpreter applies them to
 * its own values.
 */
module Store {
  import opened Wrappers
  import opened Values
  import opened Ast
  import opened Frames

  /** A record: its own properties and the record it delegates to (a class prototype). */
  datatype Obj = Obj(fields: map<string, Value>, proto: Option<nat>)

  /** Declared functions and function expressions, arrows, and class methods differ in how they bind `this`. */
  datatype FunKind = PlainFn | ArrowFn | MethodFn

  /**
   * What a `Closure(f)` value calls: an interpreted function over its defining
   * frame `env`; a class (its constructor method, the record of its static
   * methods and its prototype record); or a method read off an object, which
   * `bind` has fixed to that object.
   */
  datatype Callable =
    | Fun(kind: FunKind, params: seq<Node>, body: Node, env: nat, isAsync: bool)
    | ClassFn(ctor: Option<nat>, statics: nat, proto: nat)
    | Bound(target: nat, receiver: Value)

  datatype State = State(frames: seq<Frame>, arrays: seq<seq<Value>>, objects: seq<Obj>, callables: seq<Callable>)

  /** The host prototypes whose members a read can reach. */
  datatype HostProto = ObjectProto | ArrayProto | StringProto | NumberProto | FunctionProto

  /** Names an array inherits from the host's `Array.prototype`. */
  predicate ArrayMethodName(k: string) {
    || k in {"at", "concat", "copyWithin", "entries", "every", "fill", "filter", "find",
     "findIndex", "findLast", "findLastIndex", "flat", "flatMap", "forEach",
     "includes", "indexOf", "join", "keys", "lastIndexOf", "map", "pop", "push",
     "reduce", "reduceRight", "reverse", "shift", "slice", "some", "sort",
     "splice", "toReversed", "toSorted", "toSpliced", "unshift", "values", "with"}
    || ObjectProtoName(k)
  }

  /** Members of the host's `String.prototype`. */
  predicate StringMethodName(k: string) {
    || k in {"anchor", "at", "big", "blink", "bold", "charAt", "charCodeAt", "codePointAt", "concat",
     "endsWith", "fixed", "fontcolor", "fontsize", "includes", "indexOf", "isWellFormed",
     "italics", "lastIndexOf", "link", "localeCompare", "match", "matchAll", "normalize",
     "padEnd", "padStart", "repeat", "replace", "replaceAll", "search", "slice", "small",
     "split", "startsWith", "strike", "sub", "substr", "substring", "sup", "toLocaleLowerCase",
     "toLocaleUpperCase", "toLowerCase", "toUpperCase", "toWellFormed", "trim", "trimEnd",
     "trimLeft", "trimRight", "trimStart"}
    || ObjectProtoName(k)
  }

  /** Members of the host's `Number.prototype` and `Boolean.prototype`. */
  predicate NumberMethodName(k: string) {
    k in {"toExponential", "toFixed", "toPrecision"} || ObjectProtoName(k)
  }

  /** Members every function has (`Function.prototype` and the own `length` and `name`). */
  predicate FunctionMemberName(k: string) {
    k in {"apply", "bind", "call", "length", "name", "arguments", "caller", "prototype"} || ObjectProtoName(k)
  }

  /** Whether host prototype `p` supplies a member named `k`. */
  predicate HostMember(p: HostProto, k: string) {
    match p
    case ObjectProto => ObjectProtoName(k)
    case ArrayProto => ArrayMethodName(k)
    case StringProto => StringMethodName(k)
    case NumberProto => NumberMethodName(k)
    case FunctionProto => FunctionMemberName(k)
  }

  /**
   * What every later state keeps of an earlier one: tables only grow, frames
   * never change parent, records never change prototype, and callables, once
   * created, never change.
   */
  ghost predicate Extends(st: State, st': State) {
    && |st.frames| <= |st'.frames| && |st.arrays| <= |st'.arrays| && |st.objects| <= |st'.objects|
    && st.callables <= st'.callables
    && (forall i :: 0 <= i < |st.frames| ==> st'.frames[i].parent == st.frames[i].parent)
    && (forall i :: 0 <= i < |st.objects| ==> st'.objects[i].proto == st.objects[i].proto)
  }

  lemma ExtendsTransitive(s1: State, s2: State, s3: State)
    requires Extends(s1, s2) && Extends(s2, s3)
    ensures Extends(s1, s3)
  {
  }

  // Allocation: every new entity takes the next id of its table.

  function NewFrame(st: State, vars: map<string, Value>, parent: nat): (r: (State, nat))
    ensures r.1 == |st.frames| && r.0.frames == st.frames + [Frame(vars, Some(parent))]
    ensures r.0.arrays == st.arrays && r.0.objects == st.objects && r.0.callables == st.callables
    ensures Extends(st, r.0)
  {
    (st.(frames := st.frames + [Frame(vars, Some(parent))]), |st.frames|)
  }

  function NewArray(st: State, elems: seq<Value>): (r: (State, Value))
    ensures r.1 == Arr(|st.arrays|) && r.0.arrays == st.arrays + [elems]
    ensures r.0.frames == st.frames && r.0.objects == st.objects && r.0.callables == st.callables
    ensures Extends(st, r.0)
  {
    (st.(arrays := st.arrays + [elems]), Arr(|st.arrays|))
  }

  function NewObject(st: State, fields: map<string, Value>, proto: Option<nat>): (r: (State, nat))
    ensures r.1 == |st.objects| && r.0.objects == st.objects + [Obj(fields, proto)]
    ensures r.0.frames == st.frames && r.0.arrays == st.arrays && r.0.callables == st.callables
    ensures Extends(st, r.0)
  {
    (st.(objects := st.objects + [Obj(fields, proto)]), |st.objects|)
  }

  function NewCallable(st: State, c: Callable): (r: (State, nat))
    ensures r.1 == |st.callables| && r.0.callables == st.callables + [c]
    ensures r.0.frames == st.frames && r.0.arrays == st.arrays && r.0.objects == st.objects
    ensures Extends(st, r.0)
  {
    (st.(callables := st.callables + [c]), |st.callables|)
  }

  /** `scope[x] = v` on the frame itself (function hoisting, loop variables, `++`/`--`). */
  function Declare(st: State, scope: nat, x: string, v: Value): (r: State)
    ensures Extends(st, r)
  {
    st.(frames := WriteOwn(st.frames, scope, x, v))
  }

  /** Record property read through the prototype link. */
  function RecordGet(objs: seq<Obj>, id: nat, k: string): Option<Value>
    decreases id
  {
    if id >= |objs| then None
    else if k in objs[id].fields then Some(objs[id].fields[k])
    else match objs[id].proto
      case Some(p) => if p < id then RecordGet(objs, p, k) else None
      case None => None
  }

  function ArrayLen(st: State, a: nat): nat {
    if a < |st.arrays| then |st.arrays[a]| else 0
  }

  function ArrayAt(st: State, a: nat, i: int): Value {
    if a < |st.arrays| && 0 <= i < |st.arrays[a]| then st.arrays[a][i] else Undefined
  }

  /** The index a key denotes on an array or a string, if any. */
  function IndexKey(key: Value): Option<nat> {
    match key
    case Int(i) => if i >= 0 then Some(i) else None
    case Str(s) => ParseNat(s)
    case _ => None
  }

  /**
   * `base[key]` for a base that is neither null nor undefined.  `None` means
   * the read reaches a member of a host prototype (an array or string
   * method, `hasOwnProperty`, a function's `call`), which is outside the model.
   */
  function GetProp(st: State, base: Value, key: Value): Option<Value> {
    match base
    case Arr(a) =>
      if IndexKey(key).Some? then Some(ArrayAt(st, a, IndexKey(key).value))
      else if key == Str("length") then Some(Int(ArrayLen(st, a)))
      else HostOr(key, ArrayProto, Undefined)
    case Str(s) =>
      if IndexKey(key).Some? then
        Some(if IndexKey(key).value < |s| then Str([s[IndexKey(key).value]]) else Undefined)
      else if key == Str("length") then Some(Int(|s|))
      else HostOr(key, StringProto, Undefined)
    case Int(_) => HostOr(key, NumberProto, Undefined)
    case Bool(_) => HostOr(key, NumberProto, Undefined)
    case Rec(r) =>
      (match ToStr(key)
        case Some(k) =>
          (match RecordGet(st.objects, r, k)
            case Some(v) => Some(v)
            case None => Inherited(k))
        case None => None)
    case Closure(f) =>
      if f < |st.callables| && st.callables[f].ClassFn? then
        (match ToStr(key)
          case Some(k) =>
            if k == "prototype" then Some(Rec(st.callables[f].proto))
            else (match RecordGet(st.objects, st.callables[f].statics, k)
              case Some(v) => Some(v)
              case None => if FunctionMemberName(k) then None else Some(Undefined))
          case None => None)
      else HostOr(key, FunctionProto, Undefined)
    case Exn(x) =>
      (match ToStr(key)
        case Some(k) => ExnGet(x, k)
        case None => None)
    case _ => None
  }

  /**
   * `x[k]` on a thrown value: a signal is a plain object holding its flag
   * (and a return signal its `value`); an error has its `message`, `stack`
   * and inherited `name`.
   */
  function ExnGet(x: Exception, k: string): Option<Value> {
    match x
    case ReturnSignal(v) =>
      if k == "__return" then Some(Bool(true)) else if k == "value" then Some(v) else Inherited(k)
    case BreakSignal => if k == "__break" then Some(Bool(true)) else Inherited(k)
    case ContinueSignal => if k == "__continue" then Some(Bool(true)) else Inherited(k)
    case ReferenceError(m) => ErrorGet(x, m, k)
    case TypeError(m) => ErrorGet(x, m, k)
    case Error(m) => ErrorGet(x, m, k)
  }

  function ErrorGet(x: Exception, message: string, k: string): Option<Value> {
    if k == "message" then Some(Str(message))
    else if k == "name" then Some(Str(ErrorName(x)))
    else if k == "stack" then None
    else Inherited(k)
  }

  /** A key a plain object does not own: a host `Object.prototype` member, or undefined. */
  function Inherited(k: string): Option<Value> {
    if ObjectProtoName(k) then None else Some(Undefined)
  }

  /** A read that yields `v` unless the key names one of the host members `host`. */
  function HostOr(key: Value, host: HostProto, v: Value): Option<Value> {
    match ToStr(key)
    case Some(k) => if HostMember(host, k) then None else Some(v)
    case None => None
  }

  /** `arr[i]` as an array pattern reads it; a primitive or absent slot reads as undefined. */
  function ElemAt(st: State, src: Value, i: nat): Value {
    match src
    case Arr(a) => ArrayAt(st, a, i)
    case Str(s) => if i < |s| then Str([s[i]]) else Undefined
    case Rec(r) =>
      (match RecordGet(st.objects, r, NatToDec(i)) case Some(v) => v case None => Undefined)
    case Closure(f) =>
      if f < |st.callables| && st.callables[f].ClassFn? then
        (match RecordGet(st.objects, st.callables[f].statics, NatToDec(i)) case Some(v) => v case None => Undefined)
      else Undefined
    case _ => Undefined
  }

  function IndexEntries(e: seq<Value>): (m: map<string, Value>)
    ensures forall i :: 0 <= i < |e| ==> NatToDec(i) in m && m[NatToDec(i)] == e[i]
    ensures forall k :: k in m ==> ParseNat(k).Some? && ParseNat(k).value < |e|
  {
    if e == [] then map[]
    else
      var n := |e| - 1;
      var m0 := IndexEntries(e[..n]);
      IndexEntriesStep(e, m0);
      m0[NatToDec(n) := e[n]]
  }

  lemma IndexEntriesStep(e: seq<Value>, m0: map<string, Value>)
    requires |e| > 0
    requires forall i :: 0 <= i < |e| - 1 ==> NatToDec(i) in m0 && m0[NatToDec(i)] == e[i]
    requires forall k :: k in m0 ==> ParseNat(k).Some? && ParseNat(k).value < |e| - 1
    ensures var m := m0[NatToDec(|e| - 1) := e[|e| - 1]];
      && (forall i :: 0 <= i < |e| ==> NatToDec(i) in m && m[NatToDec(i)] == e[i])
      && (forall k :: k in m ==> ParseNat(k).Some? && ParseNat(k).value < |e|)
  {
    var n := |e| - 1;
    ParseNatOfDec(n);
    forall i | 0 <= i < n ensures NatToDec(i) != NatToDec(n) {
      NatToDecInjective(i, n);
    }
  }

  function Chars(s: string): seq<Value>
    ensures |Chars(s)| == |s|
  {
    seq(|s|, i requires 0 <= i < |s| => Str([s[i]]))
  }

  /** `Object.keys(v)` with the values: the own enumerable properties. */
  function OwnEntries(st: State, v: Value): map<string, Value> {
    match v
    case Rec(r) => if r < |st.objects| then st.objects[r].fields else map[]
    case Arr(a) => if a < |st.arrays| then IndexEntries(st.arrays[a]) else map[]
    case Str(s) => IndexEntries(Chars(s))
    case Closure(f) =>
      if f < |st.callables| && st.callables[f].ClassFn? && st.callables[f].statics < |st.objects|
      then st.objects[st.callables[f].statics].fields else map[]
    case Exn(ReturnSignal(x)) => map["__return" := Bool(true), "value" := x]
    case Exn(BreakSignal) => map["__break" := Bool(true)]
    case Exn(ContinueSignal) => map["__continue" := Bool(true)]
    case _ => map[]
  }

  datatype PutResult = Put(st: State) | PutTypeError(message: string) | PutUnmodelled

  /**
   * `base[key] = v` on a primitive base fails in strict mode, with the
   * engine's message: a nullish base cannot have properties, a string's
   * `length` and characters are read-only, and no property can be created
   * on a primitive.
   */
  function PrimitivePut(base: Value, key: Value): (r: PutResult)
    requires base.Undefined? || base.Null? || base.Bool? || base.Int? || base.Str?
    ensures !r.Put?
    ensures r.PutTypeError? <==> ToStr(key).Some?
  {
    match ToStr(key)
    case None => PutUnmodelled
    case Some(k) =>
      var b := ToStr(base).value;
      if base.Undefined? || base.Null? then PutTypeError("Cannot set properties of " + b + " (setting '" + k + "')")
      else if base.Str? && (k == "length" || (IndexKey(key).Some? && IndexKey(key).value < |base.s|)) then
        PutTypeError("Cannot assign to read only property '" + k + "' of string '" + b + "'")
      else PutTypeError("Cannot create property '" + k + "' on " + TypeOf(base) + " '" + b + "'")
  }

  /**
   * Keys whose write fails in strict mode or does not create an own
   * property: on a class function (`isStatic`) its read-only `name` and
   * `length`, the throwing `caller` and `arguments` accessors, its
   * `prototype`, and the `__proto__` setter; on any other object the
   * `__proto__` setter it inherits from `Object.prototype`.
   */
  predicate Blocked(isStatic: bool, k: string) {
    if isStatic then k in {"name", "length", "caller", "arguments", "prototype", "__proto__"} else k == "__proto__"
  }

  /**
   * `base[key] = v` (module code runs in strict mode: writing to a primitive
   * fails).  A blocked key is left to the host: the model does not store it.
   */
  function PutProp(st: State, base: Value, key: Value, v: Value): (r: PutResult)
    ensures r.Put? ==> Extends(st, r.st)
  {
    match base
    case Undefined => PrimitivePut(base, key)
    case Null => PrimitivePut(base, key)
    case Bool(_) => PrimitivePut(base, key)
    case Int(_) => PrimitivePut(base, key)
    case Str(_) => PrimitivePut(base, key)
    case Arr(a) =>
      if a < |st.arrays| && IndexKey(key).Some? && IndexKey(key).value < |st.arrays[a]| then
        Put(st.(arrays := st.arrays[a := st.arrays[a][IndexKey(key).value := v]]))
      else if a < |st.arrays| && IndexKey(key).Some? && IndexKey(key).value == |st.arrays[a]| then
        Put(st.(arrays := st.arrays[a := st.arrays[a] + [v]]))
      else PutUnmodelled
    case Rec(r) =>
      if r < |st.objects| && ToStr(key).Some? && !Blocked(false, ToStr(key).value) then
        Put(st.(objects := st.objects[r := st.objects[r].(fields := st.objects[r].fields[ToStr(key).value := v])]))
      else PutUnmodelled
    case Closure(f) =>
      if f < |st.callables| && st.callables[f].ClassFn? && st.callables[f].statics < |st.objects|
         && ToStr(key).Some? && !Blocked(true, ToStr(key).value) then
        var o := st.callables[f].statics;
        Put(st.(objects := st.objects[o := st.objects[o].(fields := st.objects[o].fields[ToStr(key).value := v])]))
      else PutUnmodelled
    case Exn(_) => PutUnmodelled
  }

  datatype SliceResult = Sliced(st: State, v: Value) | SliceTypeError | SliceUnmodelled

  /** `arr.slice(i)` as an array rest element applies it. */
  function SliceFrom(st: State, src: Value, i: nat): (r: SliceResult)
    ensures r.Sliced? ==> Extends(st, r.st)
  {
    match src
    case Arr(a) =>
      var e := if a < |st.arrays| then st.arrays[a] else [];
      var r := NewArray(st, if i <= |e| then e[i..] else []);
      Sliced(r.0, r.1)
    case Str(s) => Sliced(st, Str(if i <= |s| then s[i..] else ""))
    case Rec(r) => if RecordGet(st.objects, r, "slice").Some? then SliceUnmodelled else SliceTypeError
    case Closure(f) =>
      if f < |st.callables| && st.callables[f].ClassFn? && RecordGet(st.objects, st.callables[f].statics, "slice").Some?
      then SliceUnmodelled else SliceTypeError
    case _ => SliceTypeError
  }

  /** A key picked by an object pattern excludes the own key with the same string only when it was a string. */
  function RestOf(entries: map<string, Value>, picked: set<Value>): (r: map<string, Value>)
    ensures r.Keys == set k | k in entries && Str(k) !in picked
    ensures forall k :: k in r ==> r[k] == entries[k]
  {
    map k | k in entries && Str(k) !in picked :: entries[k]
  }

  /** The copy loop of an object rest element: one unpicked own key at a time. */
  method CopyUnpicked(entries: map<string, Value>, picked: set<Value>) returns (rest: map<string, Value>)
    ensures rest == RestOf(entries, picked)
  {
    rest := map[];
    var todo := entries.Keys;
    while todo != {}
      invariant todo <= entries.Keys
      invariant forall k :: k in rest ==> k in entries && k !in todo && Str(k) !in picked && rest[k] == entries[k]
      invariant forall k :: k in entries && k !in todo && Str(k) !in picked ==> k in rest
      decreases todo
    {
      var k :| k in todo;
      if Str(k) !in picked {
        rest := rest[k := entries[k]];
      }
      todo := todo - {k};
    }
  }
}
