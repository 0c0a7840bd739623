/**
 * The operator tables of BinaryExpression, UnaryExpression, LogicalExpression
 * and compound AssignmentExpression, restricted to integers, strings and
 * booleans.  An operator outside a table is `Unsupported` (the interpreter
 * throws "Unsupported ... operator"); a supported operator applied to
 * operands whose JavaScript meaning needs floating point or loose coercion
 * is `Unmodelled`.
 */
module Operators {
  import opened Wrappers
  import opened Values

  datatype OpResult = Val(v: Value) | Unsupported | Unmodelled

  /** Lexicographic order of strings by character code. */
  predicate StrLess(a: string, b: string) {
    if a == [] then b != []
    else if b == [] then false
    else if a[0] != b[0] then a[0] < b[0]
    else StrLess(a[1..], b[1..])
  }

  lemma {:induction false} StrLessIrreflexive(a: string)
    ensures !StrLess(a, a)
  {
    if a != [] { StrLessIrreflexive(a[1..]); }
  }

  lemma {:induction false} StrLessAsymmetric(a: string, b: string)
    ensures StrLess(a, b) ==> !StrLess(b, a)
  {
    if a != [] && b != [] && a[0] == b[0] { StrLessAsymmetric(a[1..], b[1..]); }
  }

  /** JavaScript `%`: the remainder takes the sign of the dividend, and `a - r` is a multiple of `b`. */
  function TruncRem(a: int, b: int): (r: int)
    requires b != 0
    ensures -(if b < 0 then -b else b) < r < (if b < 0 then -b else b)
    ensures a >= 0 ==> r >= 0
    ensures a <= 0 ==> r <= 0
    ensures exists q: int :: a == q * b + r
  {
    var m := if b < 0 then -b else b;
    var n := if a < 0 then -a else a;
    var t := n / m;
    var u := n % m;
    assert n == m * t + u;
    // a == s * n and b == z * m for signs s and z, so a == (s * z * t) * b + s * u
    var q := if (a < 0) == (b < 0) then t else -t;
    assert m * t == (if b < 0 then -t else t) * b;
    assert a == q * b + (if a < 0 then -u else u);
    if a < 0 then -u else u
  }

  /**
   * `Number.MAX_SAFE_INTEGER`, 2^53 - 1: every integer up to it in magnitude
   * is a double, so an integer result within it is the exact one, and one
   * beyond it may be rounded.
   */
  const MaxSafeInteger: int := 0x1F_FFFF_FFFF_FFFF

  predicate SafeInteger(i: int) {
    -MaxSafeInteger <= i <= MaxSafeInteger
  }

  /** An integer result of double arithmetic: Unmodelled where the source may round it. */
  function Exact(i: int): OpResult {
    if SafeInteger(i) then Val(Int(i)) else Unmodelled
  }

  function Pow(b: int, e: nat): int {
    if e == 0 then 1 else b * Pow(b, e - 1)
  }

  /** Primitive for which `String(v)` is defined without consulting an object. */
  predicate Primitive(v: Value) {
    v.Undefined? || v.Null? || v.Bool? || v.Int? || v.Str?
  }

  /** `+`: integer addition while exact, or string concatenation when a string is involved. */
  function Plus(l: Value, r: Value): OpResult {
    if l.Int? && r.Int? then Exact(l.i + r.i)
    else if (l.Str? || r.Str?) && Primitive(l) && Primitive(r) then
      Val(Str(ToStr(l).value + ToStr(r).value))
    else Unmodelled
  }

  /** `==`: agrees with `===` on operands of one kind; null and undefined are loosely equal only to each other. */
  function LooseEq(l: Value, r: Value): Option<bool> {
    if Nullish(l) || Nullish(r) then Some(Nullish(l) && Nullish(r))
    else if (l.Bool? && r.Bool?) || (l.Int? && r.Int?) || (l.Str? && r.Str?) then Some(l == r)
    else if l.Exn? && r.Exn? then None
    else if !Primitive(l) && !Primitive(r) then Some(l == r)
    else None
  }

  /**
   * `===`: identity on references, equality on primitives.  Two thrown
   * values are objects the interpreter allocates afresh at each throw, while
   * the model keeps only their contents, so their identity is unknown.
   */
  function StrictEq(l: Value, r: Value): Option<bool> {
    if l.Exn? && r.Exn? then None else Some(l == r)
  }

  function Compare(op: string, l: Value, r: Value): OpResult
    requires op in {"<", "<=", ">", ">="}
  {
    if l.Int? && r.Int? then
      Val(Bool(match op
        case "<" => l.i < r.i
        case "<=" => l.i <= r.i
        case ">" => l.i > r.i
        case _ => l.i >= r.i))
    else if l.Str? && r.Str? then
      Val(Bool(match op
        case "<" => StrLess(l.s, r.s)
        case "<=" => !StrLess(r.s, l.s)
        case ">" => StrLess(r.s, l.s)
        case _ => !StrLess(l.s, r.s)))
    else Unmodelled
  }

  function Arith(op: string, l: Value, r: Value): OpResult
    requires op in {"-", "*", "/", "%"}
  {
    if !(l.Int? && r.Int?) then Unmodelled
    else match op
      case "-" => Exact(l.i - r.i)
      case "*" => Exact(l.i * r.i)
      case "/" => if r.i != 0 && TruncRem(l.i, r.i) == 0 then Exact(l.i / r.i) else Unmodelled
      case _ => if r.i != 0 then Val(Int(TruncRem(l.i, r.i))) else Unmodelled
  }

  /** BinaryExpression after both operands are evaluated. */
  function Binary(op: string, l: Value, r: Value): (res: OpResult)
    ensures op == "===" ==> res == if l.Exn? && r.Exn? then Unmodelled else Val(Bool(l == r))
    ensures op == "!==" ==> res == if l.Exn? && r.Exn? then Unmodelled else Val(Bool(l != r))
    ensures (op == "==" || op == "!=") && l.Exn? && r.Exn? ==> res == Unmodelled
    ensures op == "+" && l.Int? && r.Int? ==> res == if SafeInteger(l.i + r.i) then Val(Int(l.i + r.i)) else Unmodelled
    ensures op == "-" && l.Int? && r.Int? ==> res == if SafeInteger(l.i - r.i) then Val(Int(l.i - r.i)) else Unmodelled
    ensures op == "*" && l.Int? && r.Int? ==> res == if SafeInteger(l.i * r.i) then Val(Int(l.i * r.i)) else Unmodelled
    ensures res.Unsupported? <==>
      op !in {"==", "===", "!=", "!==", "<", "<=", ">", ">=", "+", "-", "*", "/", "%", "instanceof"}
  {
    match op
    case "===" => (match StrictEq(l, r) case Some(b) => Val(Bool(b)) case None => Unmodelled)
    case "!==" => (match StrictEq(l, r) case Some(b) => Val(Bool(!b)) case None => Unmodelled)
    case "==" => (match LooseEq(l, r) case Some(b) => Val(Bool(b)) case None => Unmodelled)
    case "!=" => (match LooseEq(l, r) case Some(b) => Val(Bool(!b)) case None => Unmodelled)
    case "<" => Compare(op, l, r)
    case "<=" => Compare(op, l, r)
    case ">" => Compare(op, l, r)
    case ">=" => Compare(op, l, r)
    case "+" => Plus(l, r)
    case "-" => Arith(op, l, r)
    case "*" => Arith(op, l, r)
    case "/" => Arith(op, l, r)
    case "%" => Arith(op, l, r)
    case "instanceof" => Unmodelled
    case _ => Unsupported
  }

  /** UnaryExpression after the operand is evaluated. */
  function Unary(op: string, v: Value): (res: OpResult)
    ensures op == "!" ==> res == Val(Bool(!Truthy(v)))
    ensures op == "typeof" ==> res == Val(Str(TypeOf(v)))
    ensures res.Unsupported? <==> op !in {"!", "-", "+", "typeof"}
  {
    match op
    case "!" => Val(Bool(!Truthy(v)))
    case "-" => if v.Int? then Val(Int(-v.i)) else Unmodelled
    case "+" => if v.Int? then Val(v) else Unmodelled
    case "typeof" => Val(Str(TypeOf(v)))
    case _ => Unsupported
  }

  /** How a LogicalExpression proceeds once its left operand is known. */
  datatype Logic = Decided(v: Value) | EvalRight | UnsupportedLogic

  function LogicalStep(op: string, left: Value): (r: Logic)
    ensures op == "&&" ==> (r.Decided? <==> !Truthy(left))
    ensures op == "||" ==> (r.Decided? <==> Truthy(left))
    ensures op == "??" ==> (r.Decided? <==> !Nullish(left))
    ensures r.Decided? ==> r.v == left
    ensures r.UnsupportedLogic? <==> op !in {"&&", "||", "??"}
  {
    match op
    case "&&" => if Truthy(left) then EvalRight else Decided(left)
    case "||" => if Truthy(left) then Decided(left) else EvalRight
    case "??" => if !Nullish(left) then Decided(left) else EvalRight
    case _ => UnsupportedLogic
  }

  /** What a compound assignment does with the target's current value and the evaluated right side. */
  datatype Compound = Write(v: Value) | KeepCurrent | UnsupportedAssign | UnmodelledAssign

  function CompoundStep(op: string, curr: Value, rhs: Value): (r: Compound)
    requires op != "="
    ensures op == "??=" ==> (if Nullish(curr) then r == Write(rhs) else r == KeepCurrent)
    ensures op == "&&=" ==> r == Write(if Truthy(curr) then rhs else curr)
    ensures op == "||=" ==> r == Write(if Truthy(curr) then curr else rhs)
    ensures r.KeepCurrent? ==> op == "??="
    ensures r.UnsupportedAssign? <==>
      op !in {"+=", "-=", "*=", "/=", "%=", "**=", "<<=", ">>=", ">>>=", "&=", "|=", "^=", "&&=", "||=", "??="}
  {
    match op
    case "+=" => FromOp(Plus(curr, rhs))
    case "-=" => FromOp(Arith("-", curr, rhs))
    case "*=" => FromOp(Arith("*", curr, rhs))
    case "/=" => FromOp(Arith("/", curr, rhs))
    case "%=" => FromOp(Arith("%", curr, rhs))
    case "**=" =>
      if curr.Int? && rhs.Int? && rhs.i >= 0 && SafeInteger(Pow(curr.i, rhs.i)) then Write(Int(Pow(curr.i, rhs.i)))
      else UnmodelledAssign
    case "<<=" => UnmodelledAssign
    case ">>=" => UnmodelledAssign
    case ">>>=" => UnmodelledAssign
    case "&=" => UnmodelledAssign
    case "|=" => UnmodelledAssign
    case "^=" => UnmodelledAssign
    case "&&=" => Write(if Truthy(curr) then rhs else curr)
    case "||=" => Write(if Truthy(curr) then curr else rhs)
    case "??=" => if Nullish(curr) then Write(rhs) else KeepCurrent
    case _ => UnsupportedAssign
  }

  function FromOp(r: OpResult): Compound
    requires !r.Unsupported?
  {
    if r.Val? then Write(r.v) else UnmodelledAssign
  }
}
