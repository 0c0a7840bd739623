/**
 * Runtime values of the interpreted language and the conversions the
 * interpreter applies to them (truthiness, `typeof`, string conversion,
 * property keys, iterability).
 *
 * Arrays, records and callables are references into the interpreter state
 * (module Store): `Arr(a)`, `Rec(r)` and `Closure(f)` carry an id.  Errors and
 * the control signals the interpreter throws are first-class values too,
 * because a `catch` clause binds whatever was thrown.
 */
module Values {
  import opened Wrappers

  /** What the interpreter throws: genuine errors and its control signals. */
  datatype Exception =
    | ReferenceError(message: string)
    | TypeError(message: string)
    | Error(message: string)
    | ReturnSignal(returned: Value)
    | BreakSignal
    | ContinueSignal

  datatype Value =
    | Undefined
    | Null
    | Bool(b: bool)
    | Int(i: int)
    | Str(s: string)
    | Arr(arr: nat)
    | Rec(rec: nat)
    | Closure(fn: nat)
    | Exn(exn: Exception)

  predicate Nullish(v: Value) {
    v.Undefined? || v.Null?
  }

  /** JavaScript truthiness restricted to the model's values. */
  predicate Truthy(v: Value) {
    match v
    case Undefined => false
    case Null => false
    case Bool(b) => b
    case Int(i) => i != 0
    case Str(s) => s != ""
    case _ => true
  }

  function TypeOf(v: Value): string {
    match v
    case Undefined => "undefined"
    case Bool(_) => "boolean"
    case Int(_) => "number"
    case Str(_) => "string"
    case Closure(_) => "function"
    case _ => "object"
  }

  /**
   * Names every object inherits from the host's `Object.prototype`: the
   * members of a plain record, and also of the root scope, which is an
   * ordinary object.
   */
  predicate ObjectProtoName(k: string) {
    k in {"toString", "toLocaleString", "valueOf", "hasOwnProperty", "isPrototypeOf",
     "propertyIsEnumerable", "constructor", "__proto__", "__defineGetter__",
     "__defineSetter__", "__lookupGetter__", "__lookupSetter__"}
  }

  /** `isIterable`: only arrays and strings carry an iterator here. */
  predicate IsIterable(v: Value) {
    v.Arr? || v.Str?
  }

  function Digit(d: nat): char
    requires d < 10
  {
    "0123456789"[d]
  }

  /** Decimal numeral of a natural number, without leading zeros. */
  function NatToDec(n: nat): (r: string)
    ensures |r| > 0
    ensures forall k :: 0 <= k < |r| ==> '0' <= r[k] <= '9'
    ensures |r| > 1 ==> r[0] != '0'
  {
    if n < 10 then [Digit(n)] else NatToDec(n / 10) + [Digit(n % 10)]
  }

  function IntToDec(i: int): string {
    if i < 0 then "-" + NatToDec(-i) else NatToDec(i)
  }

  /** Parses a canonical decimal numeral (the form array indices take as keys). */
  function ParseNat(s: string): (r: Option<nat>)
    ensures r.Some? ==> |s| > 0 && (|s| > 1 ==> s[0] != '0')
  {
    if |s| == 0 || (|s| > 1 && s[0] == '0') then None else ParseDigits(s)
  }

  function ParseDigits(s: string): Option<nat>
    requires |s| > 0
  {
    var last := s[|s| - 1];
    if !('0' <= last <= '9') then None
    else if |s| == 1 then Some(last as int - '0' as int)
    else match ParseDigits(s[..|s| - 1])
      case None => None
      case Some(n) => Some(10 * n + (last as int - '0' as int))
  }

  lemma {:induction false} ParseDigitsOfDec(n: nat)
    ensures ParseDigits(NatToDec(n)) == Some(n)
  {
    if n >= 10 {
      var s := NatToDec(n);
      assert s[..|s| - 1] == NatToDec(n / 10);
      ParseDigitsOfDec(n / 10);
    }
  }

  /** The key `arr[i]` uses is read back as the same index. */
  lemma ParseNatOfDec(n: nat)
    ensures ParseNat(NatToDec(n)) == Some(n)
  {
    ParseDigitsOfDec(n);
  }

  /** Distinct indices give distinct property keys. */
  lemma NatToDecInjective(m: nat, n: nat)
    ensures NatToDec(m) == NatToDec(n) ==> m == n
  {
    ParseNatOfDec(m);
    ParseNatOfDec(n);
  }

  function ErrorName(e: Exception): string {
    match e
    case ReferenceError(_) => "ReferenceError"
    case TypeError(_) => "TypeError"
    case Error(_) => "Error"
    case _ => ""
  }

  /**
   * `String(v)` where the model can compute it: primitives, and error
   * objects (`Name: message`); the signal objects are plain records.  Arrays,
   * records and functions need their `toString`, which is outside the model.
   */
  function ToStr(v: Value): Option<string> {
    match v
    case Undefined => Some("undefined")
    case Null => Some("null")
    case Bool(b) => Some(if b then "true" else "false")
    case Int(i) => Some(IntToDec(i))
    case Str(s) => Some(s)
    case Exn(e) =>
      if e.ReturnSignal? || e.BreakSignal? || e.ContinueSignal? then Some("[object Object]")
      else Some(ErrorName(e) + ": " + e.message)
    case _ => None
  }
}
