/**
 * Tagged values as the call API sees them on the value stack: primitives,
 * heap objects, the three kinds of callable that can run (script functions,
 * heap native functions, lightfuncs) and bound functions, whose target is
 * a non-bound callable by construction.
 */
module Values {

  /** A signed 16-bit integer: the width of a native function's magic. */
  newtype Int16 = x: int | -0x8000 <= x < 0x8000

  /** The C cast `(duk_int16_t) x`: keep x modulo 2^16 and read it as a signed value. */
  function ToInt16(x: int): (r: Int16)
    ensures -0x8000 <= x < 0x8000 ==> r as int == x
    ensures (x - r as int) % 0x1_0000 == 0
  {
    var m := x % 0x1_0000;
    if m < 0x8000 then m as Int16 else (m - 0x1_0000) as Int16
  }

  /** Truncation depends only on the residue modulo 2^16. */
  lemma {:induction false} ToInt16Congruent(x: int, y: int)
    requires (x - y) % 0x1_0000 == 0
    ensures ToInt16(x) == ToInt16(y)
  {
    var q := (x - y) / 0x1_0000;
    assert x == y + q * 0x1_0000;
    assert x % 0x1_0000 == y % 0x1_0000 by { ModShift(y, q); }
  }

  lemma {:induction false} ModShift(y: int, q: int)
    ensures (y + q * 0x1_0000) % 0x1_0000 == y % 0x1_0000
  {
    var r := y % 0x1_0000;
    var d := y / 0x1_0000;
    assert y == d * 0x1_0000 + r;
    assert y + q * 0x1_0000 == (d + q) * 0x1_0000 + r;
  }

  /** A heap native function (duk_hnatfunc); its magic is updated in place. */
  class NatFunc {
    var magic: Int16
  }

  /** A callable that an activation can run: never a bound function. */
  datatype Callee =
    | ScriptFunction(id: nat)
    | NativeFunction(nf: NatFunc)
    | LightFunction(fn: nat, lfMagic: Int16)

  /** Internal errors raised by the API itself (each is a TypeError or a RangeError). */
  datatype ApiError =
    | InvalidArgs      // TypeError "invalid args"
    | InvalidIndex     // RangeError "invalid stack index"
    | PushBeyond       // RangeError "attempt to push beyond currently allocated stack"
    | UnexpectedType   // TypeError "unexpected type"
    | ConstructOnly    // TypeError "constructor requires 'new'"

  datatype Value =
    | Undefined
    | Null
    | Boolean(b: bool)
    | Number(n: int)
    | String(s: string)
    | Object(id: nat)
    | ErrorObject(kind: ApiError)
    | Function(callee: Callee)
    | BoundFunction(target: Callee, thisBinding: Value, boundArgs: seq<Value>)

  /** An error in flight: raised by the API, or a value thrown by called code. */
  datatype Error = Api(kind: ApiError) | Thrown(value: Value)

  /** The value a protected boundary leaves on the stack for a caught error. */
  function ErrorValue(e: Error): (v: Value)
    ensures e.Thrown? ==> v == e.value
    ensures e.Api? ==> v.ErrorObject? && v.kind == e.kind
  {
    match e
    case Api(k) => ErrorObject(k)
    case Thrown(x) => x
  }

  /** Replace a bound function by its target; any other value stays as it is. */
  function ResolveNonbound(v: Value): (r: Value)
    ensures !r.BoundFunction?
    ensures v.BoundFunction? ==> r == Function(v.target)
    ensures !v.BoundFunction? ==> r == v
  {
    if v.BoundFunction? then Function(v.target) else v
  }

  /** Resolving twice is resolving once: a target is never bound. */
  lemma ResolveNonboundIdempotent(v: Value)
    ensures ResolveNonbound(ResolveNonbound(v)) == ResolveNonbound(v)
  {
  }

  /** The magic of a callable, if its variant carries one (script functions do not). */
  function CalleeMagic(c: Callee): (m: Option<Int16>)
    reads if c.NativeFunction? then {c.nf} else {}
    ensures m.None? <==> c.ScriptFunction?
  {
    match c
    case ScriptFunction(_) => None
    case NativeFunction(nf) => Some(nf.magic)
    case LightFunction(_, lm) => Some(lm)
  }

  datatype Option<+T> = None | Some(value: T)

  datatype Result<+T> = Ok(value: T) | Err(error: Error)
}
