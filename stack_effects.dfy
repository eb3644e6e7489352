/**
 * The value-stack effect of every call entry point, as functions of the
 * stack before the call.  A stack is the sequence of live slots [0, top);
 * `b` is the frame bottom and `e` the allocated end, with b <= top <= e.
 * API indices are relative to the bottom; positions in a sequence are
 * absolute.
 *
 * The collaborators that this file cannot see (the execution engine, the
 * property lookup, the allocation of a default instance) are given as a
 * Host value; a host's own safe-call function is the HostFunction case of
 * SafeCallback.
 */
module StackEffects {
  import opened Values

  /** Call flags handed to the engine (DUK_CALL_FLAG_CONSTRUCTOR_CALL or 0). */
  datatype CallFlags = CallFlags(constructorCall: bool)

  const PlainCall := CallFlags(false)
  const ConstructorCall := CallFlags(true)

  /** How a collaborator finishes: with a value, or by raising an error. */
  datatype Completion = Normal(value: Value) | Abrupt(error: Error)

  datatype Host = Host(
    // runs [func this arg1 .. argN] and yields the call's single result
    engine: (seq<Value>, CallFlags) -> Completion,
    // looks up a property (object, key)
    getProp: (Value, Value) -> Completion,
    // allocates a fresh plain object, giving its identity
    newObject: Result<nat>)

  /** Whether an unprotected operation returned or raised. */
  datatype Outcome = Pass | Fail(error: Error)

  /** The stack after an operation, and how the operation ended. */
  datatype Step = Step(vals: seq<Value>, outcome: Outcome)

  ghost predicate Frame(s: seq<Value>, b: nat, e: nat) {
    b <= |s| <= e
  }

  /** t still holds the first n values of s. */
  ghost predicate Retains(t: seq<Value>, s: seq<Value>, n: int) {
    0 <= n <= |s| && n <= |t| && t[..n] == s[..n]
  }

  /**
   * duk_require_normalize_index: a relative index (negative counts down
   * from top) made into a non-negative index below `size`, if it is one.
   */
  function NormalizeIndex(size: int, idx: int): (r: Option<nat>)
    ensures r.Some? <==> -size <= idx < size
    ensures r.Some? ==> r.value < size && (r.value == idx || r.value == size + idx)
  {
    var u := if idx < 0 then size + idx else idx;
    if 0 <= u < size then Some(u) else None
  }

  /**
   * duk__call_get_idx_func: where the function sits, given the frame's
   * height `top`, the argument count and the fixed slots above the
   * function (1, or 2 when a 'this' binding is present).
   */
  function CallGetIdxFunc(top: int, nargs: int, other: int): (r: Result<int>)
    requires other >= 0
    ensures r.Ok? <==> 0 <= nargs && nargs + other <= top
    ensures r.Ok? ==> r.value + nargs + other == top && 0 <= r.value && r.value + other <= top
    ensures r.Err? ==> r.error == Api(InvalidArgs)
  {
    var idxFunc := top - nargs - other;
    if idxFunc < 0 || nargs < 0 then Err(Api(InvalidArgs)) else Ok(idxFunc)
  }

  /**
   * duk__call_get_idx_func_unvalidated: the same arithmetic where the
   * caller already knows the counts are sane; it agrees with the validated form.
   */
  function CallGetIdxFuncUnvalidated(top: int, nargs: int, other: int): (r: nat)
    requires 0 <= nargs && 0 <= other && nargs + other <= top
    ensures CallGetIdxFunc(top, nargs, other) == Ok(r as int)
  {
    top - nargs - other
  }

  /**
   * The admission test of duk_safe_call: the `nargs` consumed values are
   * all inside the frame, and `nrets` results fit below `end` once they
   * replace them.
   */
  function SafeCallAdmits(b: int, top: int, e: int, nargs: int, nrets: int): (ok: bool)
    ensures ok <==> 0 <= nargs && 0 <= nrets && b <= top - nargs && top - nargs + nrets <= e
  {
    !(nargs < 0 || nrets < 0 || top < b + nargs || e + nargs < top + nrets)
  }

  /** A 32-bit two's complement duk_idx_t read as a signed integer. */
  function Int32Of(x: bv32): (v: int)
    ensures v < 0 <==> x >= 0x8000_0000
  {
    if x < 0x8000_0000 then x as int else x as int - 0x1_0000_0000
  }

  /**
   * duk_safe_call rejects a negative nargs or nrets with one test on the
   * sign bit of their bitwise OR; that test means "either is negative".
   */
  lemma {:induction false} SignOfOr(nargs: bv32, nrets: bv32)
    ensures Int32Of(nargs | nrets) < 0 <==> Int32Of(nargs) < 0 || Int32Of(nrets) < 0
  {
    assert (nargs | nrets) >= 0x8000_0000 <==> nargs >= 0x8000_0000 || nrets >= 0x8000_0000;
  }

  /** The stack with `recv` placed just above the function at `f`. */
  function WithReceiver(s: seq<Value>, f: nat, recv: Value): (r: seq<Value>)
    requires f < |s|
    ensures |r| == |s| + 1
    ensures r[..f + 1] == s[..f + 1] && r[f + 1] == recv && r[f + 2..] == s[f + 1..]
  {
    s[..f + 1] + [recv] + s[f + 1..]
  }

  /**
   * duk_handle_call_unprotected as seen from this file: the span [f, top)
   * is replaced by the engine's one result, or the engine raises and the
   * stack is left as it was.
   */
  function Dispatch(s: seq<Value>, f: nat, flags: CallFlags, host: Host): (st: Step)
    requires f < |s|
    ensures st.outcome.Pass? ==>
      |st.vals| == f + 1 && st.vals[..f] == s[..f] && host.engine(s[f..], flags) == Normal(st.vals[f])
    ensures st.outcome.Fail? ==> st.vals == s && host.engine(s[f..], flags) == Abrupt(st.outcome.error)
  {
    match host.engine(s[f..], flags)
    case Normal(v) => Step(s[..f] + [v], Pass)
    case Abrupt(err) => Step(s, Fail(err))
  }

  /** duk_call: an undefined 'this' is inserted above the function, then dispatch. */
  function CallSpec(s: seq<Value>, b: nat, e: nat, nargs: int, host: Host): (st: Step)
    requires Frame(s, b, e)
    ensures 0 <= nargs && nargs + 1 <= |s| - b ==>
      Retains(st.vals, s, |s| - (nargs + 1)) && |s| - nargs <= |st.vals| + 1 &&
      (st.outcome.Pass? ==> |st.vals| == |s| - nargs)
    ensures !(0 <= nargs && nargs + 1 <= |s| - b) ==> st == Step(s, Fail(Api(InvalidArgs)))
    ensures Frame(st.vals, b, e)
  {
    match CallGetIdxFunc(|s| - b, nargs, 1)
    case Err(err) => Step(s, Fail(err))
    case Ok(i) =>
      // duk_insert_undefined pushes first, so a full stack fails here
      if |s| == e then Step(s, Fail(Api(PushBeyond)))
      else Dispatch(WithReceiver(s, b + i, Undefined), b + i, PlainCall, host)
  }

  /** duk_call_method: the caller has placed 'this' already. */
  function CallMethodSpec(s: seq<Value>, b: nat, nargs: int, host: Host): (st: Step)
    requires b <= |s|
    ensures 0 <= nargs && nargs + 2 <= |s| - b ==>
      Retains(st.vals, s, |s| - (nargs + 2)) && |s| - nargs - 1 <= |st.vals| <= |s| &&
      (st.outcome.Pass? ==> |st.vals| == |s| - nargs - 1)
    ensures !(0 <= nargs && nargs + 2 <= |s| - b) ==> st == Step(s, Fail(Api(InvalidArgs)))
  {
    match CallGetIdxFunc(|s| - b, nargs, 2)
    case Err(err) => Step(s, Fail(err))
    case Ok(i) => Dispatch(s, b + i, PlainCall, host)
  }

  /** duk_new: a fresh default instance is inserted as 'this'; constructor flag set. */
  function NewSpec(s: seq<Value>, b: nat, e: nat, nargs: int, host: Host): (st: Step)
    requires Frame(s, b, e)
    ensures 0 <= nargs && nargs + 1 <= |s| - b ==>
      Retains(st.vals, s, |s| - (nargs + 1)) && |s| - nargs <= |st.vals| + 1 &&
      (st.outcome.Pass? ==> |st.vals| == |s| - nargs)
    ensures Frame(st.vals, b, e)
  {
    match CallGetIdxFunc(|s| - b, nargs, 1)
    case Err(err) => Step(s, Fail(err))
    case Ok(i) =>
      if |s| == e then Step(s, Fail(Api(PushBeyond)))
      else match host.newObject
        case Err(err) => Step(s, Fail(err))
        case Ok(id) => Dispatch(WithReceiver(s, b + i, Object(id)), b + i, ConstructorCall, host)
  }

  /**
   * duk__call_prop_prep_stack: [.. key a1..aN] becomes [.. func this a1..aN]
   * where func is the property `key` of the object at absolute slot `obj`
   * and `this` is a copy of that slot taken after func has replaced the key.
   */
  function CallPropPrep(s: seq<Value>, b: nat, e: nat, obj: nat, nargs: nat, host: Host): (st: Step)
    requires Frame(s, b, e) && b <= obj < |s|
    ensures Frame(st.vals, b, e) && |s| <= |st.vals|
    ensures st.outcome.Pass? ==> |st.vals| == |s| + 1 && nargs + 1 <= |s| - b
  {
    // duk_dup(-nargs - 1): space first, then the index
    if |s| == e then Step(s, Fail(Api(PushBeyond)))
    else if |s| - b < nargs + 1 then Step(s, Fail(Api(InvalidIndex)))
    else
      var k := |s| - nargs - 1;
      match host.getProp(s[obj], s[k])
      case Abrupt(err) => Step(s + [s[k]], Fail(err))
      case Normal(func) =>
        Step(PropCallLayout(s, k, obj, func), Pass)
  }

  /** [.. key a1..aN] with func looked up: func replaces the key, a copy of the object follows it. */
  function PropCallLayout(s: seq<Value>, k: nat, obj: nat, func: Value): (r: seq<Value>)
    requires k < |s| && obj < |s|
    ensures |r| == |s| + 1 && r[..k] == s[..k] && r[k + 2..] == s[k + 1..]
    ensures r[k] == func && r[k + 1] == (if obj == k then func else s[obj])
  {
    var replaced := s[k := func];
    assert replaced[..k] == s[..k] && replaced[k + 1..] == s[k + 1..];
    replaced[..k + 1] + [replaced[obj]] + replaced[k + 1..]
  }

  /** Writing the pushed top over slot k and popping it leaves s with func at k. */
  lemma {:induction false} ReplaceFromTop(s: seq<Value>, k: nat, func: Value)
    requires k < |s|
    ensures (s + [func])[k := func][..|s|] == s[k := func]
  {
  }

  /** Moving the pushed top x down to slot p leaves s with x inserted at p. */
  lemma {:induction false} InsertFromTop(s: seq<Value>, p: nat, x: Value)
    requires p <= |s|
    ensures (s + [x])[..p] + [x] + (s + [x])[p..|s|] == s[..p] + [x] + s[p..]
  {
    assert (s + [x])[..p] == s[..p];
    assert (s + [x])[p..|s|] == s[p..];
  }

  /** The stack layout the property-call rewrite promises. */
  lemma {:induction false} CallPropPrepLayout(s: seq<Value>, b: nat, e: nat, obj: nat, nargs: nat, host: Host)
    requires Frame(s, b, e) && b <= obj < |s|
    ensures var st := CallPropPrep(s, b, e, obj, nargs, host);
      st.outcome.Pass? <==>
        (|s| < e && nargs + 1 <= |s| - b && host.getProp(s[obj], s[|s| - nargs - 1]).Normal?)
    ensures var st := CallPropPrep(s, b, e, obj, nargs, host);
      var k := |s| - nargs - 1;
      st.outcome.Pass? ==>
        |st.vals| == |s| + 1 &&
        st.vals[..k] == s[..k] &&
        st.vals[k] == host.getProp(s[obj], s[k]).value &&
        st.vals[k + 1] == (if obj == k then st.vals[k] else s[obj]) &&
        st.vals[k + 2..] == s[k + 1..] &&
        Frame(st.vals, b, e)
    ensures var st := CallPropPrep(s, b, e, obj, nargs, host);
      st.outcome.Fail? ==> |s| <= |st.vals| && st.vals[..|s|] == s
  {
    var st := CallPropPrep(s, b, e, obj, nargs, host);
    if st.outcome.Pass? {
      var k := |s| - nargs - 1;
      var func := host.getProp(s[obj], s[k]).value;
      var replaced := s[k := func];
      assert st.vals == replaced[..k + 1] + [replaced[obj]] + replaced[k + 1..];
      assert replaced[..k] == s[..k];
      assert replaced[k + 1..] == s[k + 1..];
      assert st.vals[k + 2..] == replaced[k + 1..];
    }
  }

  /** The rewrite stopped by its first step, the copy of the key. */
  lemma {:induction false} CallPropPrepDupFails(s: seq<Value>, b: nat, e: nat, obj: nat, nargs: nat, host: Host, err: ApiError)
    requires Frame(s, b, e) && b <= obj < |s|
    requires err == (if |s| == e then PushBeyond else InvalidIndex)
    requires |s| == e || |s| - b < nargs + 1
    ensures CallPropPrep(s, b, e, obj, nargs, host) == Step(s, Fail(Api(err)))
  {
  }

  /** The rewrite stopped by the property lookup, with the copied key left on top. */
  lemma {:induction false} CallPropPrepLookupFails(s: seq<Value>, b: nat, e: nat, obj: nat, nargs: nat, host: Host,
                                                    k: nat, err: Error)
    requires Frame(s, b, e) && b <= obj < |s|
    requires |s| < e && k == |s| - nargs - 1 && b <= k
    requires host.getProp(s[obj], s[k]) == Abrupt(err)
    ensures CallPropPrep(s, b, e, obj, nargs, host) == Step(s + [s[k]], Fail(err))
  {
  }

  /** The rewrite that succeeds: the looked-up function replaces the key, the object is inserted after it. */
  lemma {:induction false} CallPropPrepPass(s: seq<Value>, b: nat, e: nat, obj: nat, nargs: nat, host: Host,
                                            k: nat, func: Value)
    requires Frame(s, b, e) && b <= obj < |s|
    requires |s| < e && k == |s| - nargs - 1 && b <= k
    requires host.getProp(s[obj], s[k]) == Normal(func)
    ensures CallPropPrep(s, b, e, obj, nargs, host) == Step(PropCallLayout(s, k, obj, func), Pass)
  {
  }

  /** duk_call_prop: normalise the object index, check nargs, rewrite, call as a method. */
  function CallPropSpec(s: seq<Value>, b: nat, e: nat, objIdx: int, nargs: int, host: Host): (st: Step)
    requires Frame(s, b, e)
    ensures st.outcome.Pass? ==> 0 <= nargs && nargs + 1 <= |s| - b && |st.vals| == |s| - nargs
    ensures 0 <= nargs && nargs + 1 <= |s| - b ==> Retains(st.vals, s, |s| - nargs - 1)
    ensures Frame(st.vals, b, e)
  {
    match NormalizeIndex(|s| - b, objIdx)
    case None => Step(s, Fail(Api(InvalidIndex)))
    case Some(o) =>
      if nargs < 0 then Step(s, Fail(Api(InvalidArgs)))
      else
        var p := CallPropPrep(s, b, e, b + o, nargs, host);
        if p.outcome.Fail? then p else CallMethodSpec(p.vals, b, nargs, host)
  }
  /** duk_call_prop once the object index is known to be valid: the rewrite, then the method call. */
  lemma {:induction false} CallPropValidIndex(s: seq<Value>, b: nat, e: nat, objIdx: int, nargs: nat, host: Host, o: nat)
    requires Frame(s, b, e) && NormalizeIndex(|s| - b, objIdx) == Some(o)
    ensures var p := CallPropPrep(s, b, e, b + o, nargs, host);
      CallPropSpec(s, b, e, objIdx, nargs, host) ==
        if p.outcome.Fail? then p else CallMethodSpec(p.vals, b, nargs, host)
  {
  }

  /** The engine's call on the rewritten stack: it sees [func this a1..aN] and its result replaces the key's slot onward. */
  lemma {:induction false} PropCallDispatch(s: seq<Value>, k: nat, obj: nat, func: Value, host: Host)
    requires k < |s| && obj < |s|
    ensures var thisv := if obj == k then func else s[obj];
      var st := Dispatch(PropCallLayout(s, k, obj, func), k, PlainCall, host);
      var r := host.engine([func, thisv] + s[k + 1..], PlainCall);
      (r.Normal? ==> st == Step(s[..k] + [r.value], Pass)) &&
      (r.Abrupt? ==> st == Step(s[..k] + [func, thisv] + s[k + 1..], Fail(r.error)))
  {
    var thisv := if obj == k then func else s[obj];
    var t := PropCallLayout(s, k, obj, func);
    assert t[k..] == [func, thisv] + s[k + 1..];
    assert t == s[..k] + [func, thisv] + s[k + 1..] by {
      assert t[..k] + t[k..] == t;
    }
  }

  /**
   * duk_call_prop before the engine: a bad object index, then a negative
   * nargs, then the copy of the key (room first, then the key's presence),
   * then a raising lookup, which leaves the copied key on top.
   */
  lemma {:induction false} CallPropRejects(s: seq<Value>, b: nat, e: nat, objIdx: int, nargs: int, host: Host)
    requires Frame(s, b, e)
    ensures var st := CallPropSpec(s, b, e, objIdx, nargs, host);
      var o := NormalizeIndex(|s| - b, objIdx);
      var k := |s| - nargs - 1;
      if o.None? then st == Step(s, Fail(Api(InvalidIndex)))
      else if nargs < 0 then st == Step(s, Fail(Api(InvalidArgs)))
      else if |s| == e then st == Step(s, Fail(Api(PushBeyond)))
      else if k < b then st == Step(s, Fail(Api(InvalidIndex)))
      else host.getProp(s[b + o.value], s[k]).Abrupt? ==>
        st == Step(s + [s[k]], Fail(host.getProp(s[b + o.value], s[k]).error))
  {
  }

  /**
   * duk_call_prop once the lookup has produced func: the engine sees
   * [func this a1..aN], `this` being the object (or func itself when the
   * object index named the key's slot); its one result replaces the key and
   * the arguments, and a raise leaves the rewritten stack.
   */
  lemma {:induction false} CallPropEngine(s: seq<Value>, b: nat, e: nat, objIdx: int, nargs: nat, host: Host,
                                          o: nat, func: Value)
    requires Frame(s, b, e) && |s| < e && b + nargs + 1 <= |s|
    requires NormalizeIndex(|s| - b, objIdx) == Some(o)
    requires host.getProp(s[b + o], s[|s| - nargs - 1]) == Normal(func)
    ensures var k := |s| - nargs - 1;
      var thisv := if b + o == k then func else s[b + o];
      var st := CallPropSpec(s, b, e, objIdx, nargs, host);
      var r := host.engine([func, thisv] + s[k + 1..], PlainCall);
      (r.Normal? ==> st == Step(s[..k] + [r.value], Pass)) &&
      (r.Abrupt? ==> st == Step(s[..k] + [func, thisv] + s[k + 1..], Fail(r.error)))
  {
    var k := |s| - nargs - 1;
    var t := PropCallLayout(s, k, b + o, func);
    CallPropValidIndex(s, b, e, objIdx, nargs, host, o);
    CallPropPrepPass(s, b, e, b + o, nargs, host, k, func);
    MethodCallAfterPrep(t, b, nargs, host);
    PropCallDispatch(s, k, b + o, func, host);
  }



  /**
   * duk_call in full: the count check, then the pushed 'this', then the
   * engine sees [func undefined a1..aN] and its one result replaces that span.
   */
  lemma {:induction false} CallShape(s: seq<Value>, b: nat, e: nat, nargs: int, host: Host)
    requires Frame(s, b, e)
    ensures var st := CallSpec(s, b, e, nargs, host);
      var f := |s| - nargs - 1;
      if nargs < 0 || f < b then st == Step(s, Fail(Api(InvalidArgs)))
      else if |s| == e then st == Step(s, Fail(Api(PushBeyond)))
      else match host.engine([s[f], Undefined] + s[f + 1..], PlainCall)
        case Normal(v) => st == Step(s[..f] + [v], Pass)
        case Abrupt(err) => st == Step(s[..f + 1] + [Undefined] + s[f + 1..], Fail(err))
  {
    var f := |s| - nargs - 1;
    if 0 <= nargs && b <= f && |s| < e {
      var w := WithReceiver(s, f, Undefined);
      assert w[f..] == [s[f], Undefined] + s[f + 1..];
    }
  }

  /**
   * duk_call_method in full: the count check, then the engine sees the
   * caller's [func this a1..aN] as it stands.  Nothing is pushed first, so
   * an Invalid-Args the callee raises leaves the same step as the count
   * check does.
   */
  lemma {:induction false} CallMethodShape(s: seq<Value>, b: nat, e: nat, nargs: int, host: Host)
    requires Frame(s, b, e)
    ensures var st := CallMethodSpec(s, b, nargs, host);
      var f := |s| - nargs - 2;
      if nargs < 0 || f < b then st == Step(s, Fail(Api(InvalidArgs)))
      else
        var r := host.engine([s[f], s[f + 1]] + s[f + 2..], PlainCall);
        (r.Normal? ==> st == Step(s[..f] + [r.value], Pass)) &&
        (r.Abrupt? ==> st == Step(s, Fail(r.error)))
  {
    var f := |s| - nargs - 2;
    if 0 <= nargs && b <= f {
      assert CallGetIdxFunc(|s| - b, nargs, 2) == Ok(f - b);
      assert s[f..] == [s[f], s[f + 1]] + s[f + 2..];
    }
  }

  /**
   * duk_new in full: as duk_call, but 'this' is the freshly allocated
   * default instance and the engine is told it is a constructor call.
   */
  lemma {:induction false} NewShape(s: seq<Value>, b: nat, e: nat, nargs: int, host: Host)
    requires Frame(s, b, e)
    ensures var st := NewSpec(s, b, e, nargs, host);
      var f := |s| - nargs - 1;
      if nargs < 0 || f < b then st == Step(s, Fail(Api(InvalidArgs)))
      else if |s| == e then st == Step(s, Fail(Api(PushBeyond)))
      else if host.newObject.Err? then st == Step(s, Fail(host.newObject.error))
      else
        var inst := Object(host.newObject.value);
        match host.engine([s[f], inst] + s[f + 1..], ConstructorCall)
        case Normal(v) => st == Step(s[..f] + [v], Pass)
        case Abrupt(err) => st == Step(s[..f + 1] + [inst] + s[f + 1..], Fail(err))
  {
    var f := |s| - nargs - 1;
    if 0 <= nargs && b <= f && |s| < e && host.newObject.Ok? {
      var w := WithReceiver(s, f, Object(host.newObject.value));
      assert w[f..] == [s[f], Object(host.newObject.value)] + s[f + 1..];
    }
  }

  /*
   * Protected calls.  duk_safe_call runs a callback behind an error
   * boundary; the four protected call shapes are callbacks of this file
   * whose argument record (the udata) is carried by the constructor.
   */

  /** What a host-supplied safe-call function does with its inputs. */
  datatype HostReturn = Returns(results: seq<Value>) | Raises(error: Value)

  datatype SafeCallback =
    | PcallRaw(nargs: int, callFlags: CallFlags)                   // duk__pcall_raw
    | PcallMethodRaw(nargs: int, callFlags: CallFlags)             // duk__pcall_method_raw
    | PcallPropRaw(objIdx: int, nargs: int, callFlags: CallFlags)  // duk__pcall_prop_raw
    | PnewHelper(nargs: int)                                       // duk__pnew_helper
    | HostFunction(run: seq<Value> -> HostReturn)

  /**
   * The consumed count each internal callback is always given by its one
   * caller; a host function may be given any count.
   */
  ghost predicate Declares(cb: SafeCallback, nargs: int) {
    cb.HostFunction? || (cb.nargs >= 0 && nargs == Consumed(cb))
  }

  /** The values an internal callback consumes: its arguments, the function, and 'this' for a method call. */
  function Consumed(cb: SafeCallback): int
    requires !cb.HostFunction?
  {
    if cb.PcallMethodRaw? then cb.nargs + 2 else cb.nargs + 1
  }

  /** A callback returns a count of results on top of the stack, or raises. */
  datatype CallbackResult = Returned(rc: nat) | Raised(error: Error)

  datatype CallbackStep = CallbackStep(vals: seq<Value>, result: CallbackResult)

  /** An unprotected step seen as a callback that returns its one result. */
  function AsCallback(st: Step): (r: CallbackStep)
    ensures r.vals == st.vals
    ensures st.outcome.Pass? <==> r.result == Returned(1)
    ensures st.outcome.Fail? ==> r.result == Raised(st.outcome.error)
  {
    CallbackStep(st.vals, if st.outcome.Pass? then Returned(1) else Raised(st.outcome.error))
  }

  /** duk__pcall_raw: as duk_call, with the index taken unvalidated. */
  function PcallRawSpec(s: seq<Value>, b: nat, e: nat, nargs: nat, flags: CallFlags, host: Host): (st: Step)
    requires Frame(s, b, e) && nargs + 1 <= |s| - b
    ensures Retains(st.vals, s, |s| - (nargs + 1)) && |s| - nargs <= |st.vals| + 1
    ensures st.outcome.Pass? ==> |st.vals| == |s| - nargs
    ensures Frame(st.vals, b, e)
  {
    var f := b + CallGetIdxFuncUnvalidated(|s| - b, nargs, 1);
    if |s| == e then Step(s, Fail(Api(PushBeyond)))
    else Dispatch(WithReceiver(s, f, Undefined), f, flags, host)
  }

  /** duk__pcall_method_raw: dispatch with the caller's flags, index unvalidated. */
  function PcallMethodRawSpec(s: seq<Value>, b: nat, nargs: nat, flags: CallFlags, host: Host): (st: Step)
    requires b <= |s| && nargs + 2 <= |s| - b
    ensures Retains(st.vals, s, |s| - (nargs + 2)) && |s| - nargs - 1 <= |st.vals| <= |s|
    ensures st.outcome.Pass? ==> |st.vals| == |s| - nargs - 1
  {
    Dispatch(s, b + CallGetIdxFuncUnvalidated(|s| - b, nargs, 2), flags, host)
  }

  /**
   * duk__pcall_prop_raw: normalise the object index inside the boundary,
   * rewrite the stack, then dispatch on the function found nargs + 2 below top.
   */
  function PcallPropRawSpec(s: seq<Value>, b: nat, e: nat, objIdx: int, nargs: nat, flags: CallFlags, host: Host): (st: Step)
    requires Frame(s, b, e) && nargs + 1 <= |s| - b
    ensures Retains(st.vals, s, |s| - (nargs + 1)) && |s| - nargs <= |st.vals| + 1
    ensures st.outcome.Pass? ==> |st.vals| == |s| - nargs
    ensures Frame(st.vals, b, e)
  {
    match NormalizeIndex(|s| - b, objIdx)
    case None => Step(s, Fail(Api(InvalidIndex)))
    case Some(o) =>
      var p := CallPropPrep(s, b, e, b + o, nargs, host);
      if p.outcome.Fail? then p
      else Dispatch(p.vals, |p.vals| - nargs - 2, flags, host)  // duk_handle_call_unprotected_nargs
  }

  /** duk__pcall_prop_raw once the object index is known to be valid: the rewrite, then the dispatch. */
  lemma {:induction false} PcallPropRawValidIndex(s: seq<Value>, b: nat, e: nat, objIdx: int, nargs: nat, flags: CallFlags,
                                                   host: Host, o: nat)
    requires Frame(s, b, e) && nargs + 1 <= |s| - b && NormalizeIndex(|s| - b, objIdx) == Some(o)
    ensures var p := CallPropPrep(s, b, e, b + o, nargs, host);
      p.outcome.Pass? ==> nargs + 2 <= |p.vals| - b
    ensures var p := CallPropPrep(s, b, e, b + o, nargs, host);
      PcallPropRawSpec(s, b, e, objIdx, nargs, flags, host) ==
        if p.outcome.Fail? then p else Dispatch(p.vals, |p.vals| - nargs - 2, flags, host)
  {
  }

  /** Running a callback: nothing below the consumed values is touched. */
  function RunCallback(cb: SafeCallback, s: seq<Value>, b: nat, e: nat, nargs: int, host: Host): (r: CallbackStep)
    requires Frame(s, b, e) && Declares(cb, nargs) && 0 <= nargs <= |s| - b
    ensures Retains(r.vals, s, |s| - nargs)
    ensures r.result.Returned? ==> r.result.rc <= |r.vals| - (|s| - nargs)
    ensures Frame(r.vals, b, e)
  {
    if cb.HostFunction? then RunHostFunction(cb.run, s, |s| - nargs, e)
    else RunInternal(cb, s, b, e, host)
  }

  /** One of this file's own callbacks as the boundary sees it: one result, or a raised error. */
  function RunInternal(cb: SafeCallback, s: seq<Value>, b: nat, e: nat, host: Host): (r: CallbackStep)
    requires Frame(s, b, e) && !cb.HostFunction? && Declares(cb, Consumed(cb)) && Consumed(cb) <= |s| - b
    ensures Retains(r.vals, s, |s| - Consumed(cb))
    ensures r.result.Returned? ==> r.result.rc <= |r.vals| - (|s| - Consumed(cb))
    ensures Frame(r.vals, b, e)
  {
    AsCallback(InternalStep(cb, s, b, e, host))
  }

  /** One of this file's own callbacks, which returns one value or raises. */
  function InternalStep(cb: SafeCallback, s: seq<Value>, b: nat, e: nat, host: Host): (st: Step)
    requires Frame(s, b, e) && !cb.HostFunction? && Declares(cb, Consumed(cb)) && Consumed(cb) <= |s| - b
    ensures Retains(st.vals, s, |s| - Consumed(cb)) && |s| - Consumed(cb) < |st.vals|
    ensures st.outcome.Pass? ==> |st.vals| == |s| - Consumed(cb) + 1
    ensures Frame(st.vals, b, e)
  {
    if cb.PcallRaw? then PcallRawSpec(s, b, e, cb.nargs, cb.callFlags, host)
    else if cb.PcallMethodRaw? then PcallMethodRawSpec(s, b, cb.nargs, cb.callFlags, host)
    else if cb.PcallPropRaw? then PcallPropRawSpec(s, b, e, cb.objIdx, cb.nargs, cb.callFlags, host)
    else NewSpec(s, b, e, cb.nargs, host)
  }

  /**
   * A host safe-call function sees its arguments and leaves its results
   * above them, or raises; pushing past end raises instead.
   */
  function RunHostFunction(run: seq<Value> -> HostReturn, s: seq<Value>, base: nat, e: nat): (r: CallbackStep)
    requires base <= |s| <= e
    ensures Retains(r.vals, s, base) && |r.vals| <= e
    ensures r.result.Returned? ==> r.result.rc <= |r.vals| - base
  {
    match run(s[base..])
    case Returns(rs) =>
      // the values a host function pushes must fit below end
      if base + |rs| > e then CallbackStep(s, Raised(Api(PushBeyond)))
      else
        assert (s[..base] + rs)[..base] == s[..base];
        CallbackStep(s[..base] + rs, Returned(|rs|))
    case Raises(v) => CallbackStep(s, Raised(Thrown(v)))
  }

  /** The first n of vs, padded with undefined: what a boundary leaves as n results. */
  function Fit(vs: seq<Value>, n: nat): (r: seq<Value>)
    ensures |r| == n
  {
    if n <= |vs| then vs[..n] else vs + Undefineds(n - |vs|)
  }

  /** k undefined values: what a boundary pushes for results a callback did not give. */
  function Undefineds(k: nat): (r: seq<Value>)
    ensures |r| == k
    ensures forall i :: 0 <= i < k ==> r[i] == Undefined
  {
    if k == 0 then [] else Undefineds(k - 1) + [Undefined]
  }

  /** Slot i of the fitted results is vs[i] where vs has one, undefined beyond. */
  lemma {:induction false} FitSlots(vs: seq<Value>, n: nat)
    ensures forall i :: 0 <= i < n ==> Fit(vs, n)[i] == (if i < |vs| then vs[i] else Undefined)
  {
    if n > |vs| {
      var pad := Undefineds(n - |vs|);
      assert forall i :: |vs| <= i < n ==> Fit(vs, n)[i] == pad[i - |vs|];
    }
  }

  /** DUK_EXEC_SUCCESS and DUK_EXEC_ERROR. */
  datatype ExecStatus = ExecSuccess | ExecError

  /** The stack after a protected entry point; Err when it raised instead of returning a status. */
  datatype ProtectedStep = ProtectedStep(vals: seq<Value>, result: Result<ExecStatus>)

  /**
   * duk_safe_call: the admission check, then the callback behind the
   * boundary; its results, or the caught error, replace the consumed
   * values and are fitted to exactly nrets slots.
   */
  function SafeCallSpec(s: seq<Value>, b: nat, e: nat, cb: SafeCallback, nargs: int, nrets: int, host: Host): (p: ProtectedStep)
    requires Frame(s, b, e) && Declares(cb, nargs)
    ensures p.result.Err? ==> p == ProtectedStep(s, Err(Api(InvalidArgs)))
    ensures p.result.Ok? ==> |p.vals| == |s| - nargs + nrets
    ensures Frame(p.vals, b, e)
  {
    if !SafeCallAdmits(b, |s|, e, nargs, nrets) then ProtectedStep(s, Err(Api(InvalidArgs)))
    else Settle(RunCallback(cb, s, b, e, nargs, host), |s| - nargs, nrets)
  }

  /** An admitted safe call is its callback's step, unwound at the first consumed slot. */
  lemma {:induction false} SafeCallAdmitted(s: seq<Value>, b: nat, e: nat, cb: SafeCallback, nargs: nat, nrets: nat, host: Host)
    requires Frame(s, b, e) && Declares(cb, nargs) && SafeCallAdmits(b, |s|, e, nargs, nrets)
    ensures SafeCallSpec(s, b, e, cb, nargs, nrets, host) == Settle(RunCallback(cb, s, b, e, nargs, host), |s| - nargs, nrets)
  {
  }

  /**
   * The boundary's unwinding after the callback: the slots from base up
   * become its rc results, or the caught error, fitted to nrets slots.
   */
  function Settle(r: CallbackStep, base: nat, nrets: nat): (p: ProtectedStep)
    requires base <= |r.vals|
    requires r.result.Returned? ==> r.result.rc <= |r.vals| - base
    ensures |p.vals| == base + nrets && p.result.Ok?
  {
    ProtectedStep(r.vals[..base] + Fit(Outputs(r), nrets), Ok(if r.result.Returned? then ExecSuccess else ExecError))
  }

  /** What a callback hands to the boundary: its rc topmost values, or the value of its error. */
  function Outputs(r: CallbackStep): (out: seq<Value>)
    requires r.result.Returned? ==> r.result.rc <= |r.vals|
    ensures r.result.Returned? ==> out == r.vals[|r.vals| - r.result.rc..]
    ensures r.result.Raised? ==> out == [ErrorValue(r.result.error)]
  {
    if r.result.Returned? then r.vals[|r.vals| - r.result.rc..] else [ErrorValue(r.result.error)]
  }

  /**
   * What duk_safe_call promises: it raises Invalid-Args with the stack
   * untouched exactly when the counts are insane; otherwise it returns a
   * status, nothing below the consumed values has changed, and exactly
   * nrets values stand in their place (the caught error first, on failure).
   */
  lemma {:induction false} SafeCallContract(s: seq<Value>, b: nat, e: nat, cb: SafeCallback, nargs: int, nrets: int, host: Host)
    requires Frame(s, b, e) && Declares(cb, nargs)
    ensures var p := SafeCallSpec(s, b, e, cb, nargs, nrets, host);
      p.result.Err? <==> (nargs < 0 || nrets < 0 || |s| < b + nargs || e + nargs < |s| + nrets)
    ensures var p := SafeCallSpec(s, b, e, cb, nargs, nrets, host);
      p.result.Err? ==> p.result.error == Api(InvalidArgs) && p.vals == s
    ensures var p := SafeCallSpec(s, b, e, cb, nargs, nrets, host);
      var base := |s| - nargs;
      p.result.Ok? ==>
        |p.vals| == base + nrets && p.vals[..base] == s[..base] && Frame(p.vals, b, e)
    ensures var p := SafeCallSpec(s, b, e, cb, nargs, nrets, host);
      var base := |s| - nargs;
      p.result == Ok(ExecError) && nrets > 0 ==>
        p.vals[base] == ErrorValue(RunCallback(cb, s, b, e, nargs, host).result.error)
  {
    if SafeCallAdmits(b, |s|, e, nargs, nrets) {
      var r := RunCallback(cb, s, b, e, nargs, host);
      SafeCallAdmitted(s, b, e, cb, nargs, nrets, host);
      SettleShape(r, |s| - nargs, nrets);
    } else {
      assert SafeCallSpec(s, b, e, cb, nargs, nrets, host) == ProtectedStep(s, Err(Api(InvalidArgs)));
    }
  }

  /** What the unwinding leaves: base values kept, nrets slots above them, the error first on failure. */
  lemma {:induction false} SettleShape(r: CallbackStep, base: nat, nrets: nat)
    requires base <= |r.vals|
    requires r.result.Returned? ==> r.result.rc <= |r.vals| - base
    ensures var p := Settle(r, base, nrets);
      |p.vals| == base + nrets && p.vals[..base] == r.vals[..base]
    ensures var p := Settle(r, base, nrets);
      p.result == Ok(if r.result.Returned? then ExecSuccess else ExecError)
    ensures var p := Settle(r, base, nrets);
      r.result.Raised? && nrets > 0 ==> p.vals[base] == ErrorValue(r.result.error)
  {
    var p := Settle(r, base, nrets);
    var fitted := Fit(Outputs(r), nrets);
    assert p.vals[..base] == r.vals[..base];
    if r.result.Raised? && nrets > 0 {
      assert p.vals[base] == fitted[0];
    }
  }
  /**
   * What duk_safe_call leaves in the nrets slots from base: the callback's
   * results in order, padded with undefined, after ExecSuccess; the caught
   * error followed by undefined after ExecError.
   */
  lemma {:induction false} SafeCallResults(s: seq<Value>, b: nat, e: nat, cb: SafeCallback, nargs: nat, nrets: nat, host: Host)
    requires Frame(s, b, e) && Declares(cb, nargs) && SafeCallAdmits(b, |s|, e, nargs, nrets)
    ensures var p := SafeCallSpec(s, b, e, cb, nargs, nrets, host);
      var r := RunCallback(cb, s, b, e, nargs, host);
      var base := |s| - nargs;
      r.result.Returned? ==>
        p.result == Ok(ExecSuccess) &&
        forall j :: base <= j < base + nrets ==>
          p.vals[j] == (if j - base < r.result.rc then r.vals[|r.vals| - r.result.rc + (j - base)] else Undefined)
    ensures var p := SafeCallSpec(s, b, e, cb, nargs, nrets, host);
      var r := RunCallback(cb, s, b, e, nargs, host);
      var base := |s| - nargs;
      r.result.Raised? ==>
        p.result == Ok(ExecError) &&
        forall j :: base <= j < base + nrets ==>
          p.vals[j] == (if j == base then ErrorValue(r.result.error) else Undefined)
  {
    var base := |s| - nargs;
    var r := RunCallback(cb, s, b, e, nargs, host);
    var out := Outputs(r);
    assert SafeCallSpec(s, b, e, cb, nargs, nrets, host).vals == r.vals[..base] + Fit(out, nrets);
    FitSlots(out, nrets);
  }



  /** duk_pcall: reject nargs < 0, then safe-call duk__pcall_raw consuming nargs + 1, producing 1. */
  function PcallSpec(s: seq<Value>, b: nat, e: nat, nargs: int, host: Host): (p: ProtectedStep)
    requires Frame(s, b, e)
    ensures p.result.Err? ==> p == ProtectedStep(s, Err(Api(InvalidArgs)))
    ensures Frame(p.vals, b, e)
  {
    if nargs < 0 then ProtectedStep(s, Err(Api(InvalidArgs)))
    else SafeCallSpec(s, b, e, PcallRaw(nargs, PlainCall), nargs + 1, 1, host)
  }

  /** duk_pcall_method_flags: consuming nargs + 2 (function and 'this'), producing 1. */
  function PcallMethodFlagsSpec(s: seq<Value>, b: nat, e: nat, nargs: int, flags: CallFlags, host: Host): (p: ProtectedStep)
    requires Frame(s, b, e)
    ensures p.result.Err? ==> p == ProtectedStep(s, Err(Api(InvalidArgs)))
    ensures Frame(p.vals, b, e)
  {
    if nargs < 0 then ProtectedStep(s, Err(Api(InvalidArgs)))
    else SafeCallSpec(s, b, e, PcallMethodRaw(nargs, flags), nargs + 2, 1, host)
  }

  /** duk_pcall_prop: consuming nargs + 1 (the key and the arguments), producing 1. */
  function PcallPropSpec(s: seq<Value>, b: nat, e: nat, objIdx: int, nargs: int, host: Host): (p: ProtectedStep)
    requires Frame(s, b, e)
    ensures p.result.Err? ==> p == ProtectedStep(s, Err(Api(InvalidArgs)))
    ensures Frame(p.vals, b, e)
  {
    if nargs < 0 then ProtectedStep(s, Err(Api(InvalidArgs)))
    else SafeCallSpec(s, b, e, PcallPropRaw(objIdx, nargs, PlainCall), nargs + 1, 1, host)
  }

  /** duk_pnew: the whole of duk_new behind the boundary, consuming nargs + 1, producing 1. */
  function PnewSpec(s: seq<Value>, b: nat, e: nat, nargs: int, host: Host): (p: ProtectedStep)
    requires Frame(s, b, e)
    ensures p.result.Err? ==> p == ProtectedStep(s, Err(Api(InvalidArgs)))
    ensures Frame(p.vals, b, e)
  {
    if nargs < 0 then ProtectedStep(s, Err(Api(InvalidArgs)))
    else SafeCallSpec(s, b, e, PnewHelper(nargs), nargs + 1, 1, host)
  }
  /** duk_pcall raises before the boundary exactly on bad counts; otherwise nargs + 1 values become 1. */
  lemma {:induction false} PcallCounts(s: seq<Value>, b: nat, e: nat, nargs: int, host: Host)
    requires Frame(s, b, e)
    ensures var p := PcallSpec(s, b, e, nargs, host);
      p.result.Err? <==> nargs < 0 || |s| - b < nargs + 1
    ensures var p := PcallSpec(s, b, e, nargs, host);
      p.result.Ok? ==> |p.vals| == |s| - nargs && p.vals[..|s| - nargs - 1] == s[..|s| - nargs - 1]
  {
    if nargs >= 0 {
      SafeCallContract(s, b, e, PcallRaw(nargs, PlainCall), nargs + 1, 1, host);
    }
  }

  /** duk_pcall_method_flags, whatever the flags: bad counts raise; otherwise nargs + 2 values become 1. */
  lemma {:induction false} PcallMethodFlagsCounts(s: seq<Value>, b: nat, e: nat, nargs: int, flags: CallFlags, host: Host)
    requires Frame(s, b, e)
    ensures var p := PcallMethodFlagsSpec(s, b, e, nargs, flags, host);
      p.result.Err? <==> nargs < 0 || |s| - b < nargs + 2
    ensures var p := PcallMethodFlagsSpec(s, b, e, nargs, flags, host);
      p.result.Ok? ==> |p.vals| == |s| - nargs - 1 && p.vals[..|s| - nargs - 2] == s[..|s| - nargs - 2]
  {
    if nargs >= 0 {
      SafeCallContract(s, b, e, PcallMethodRaw(nargs, flags), nargs + 2, 1, host);
    }
  }

  /** duk_pcall_prop: bad counts raise; otherwise the key and nargs arguments become 1 value. */
  lemma {:induction false} PcallPropCounts(s: seq<Value>, b: nat, e: nat, objIdx: int, nargs: int, host: Host)
    requires Frame(s, b, e)
    ensures var p := PcallPropSpec(s, b, e, objIdx, nargs, host);
      p.result.Err? <==> nargs < 0 || |s| - b < nargs + 1
    ensures var p := PcallPropSpec(s, b, e, objIdx, nargs, host);
      p.result.Ok? ==> |p.vals| == |s| - nargs && p.vals[..|s| - nargs - 1] == s[..|s| - nargs - 1]
  {
    if nargs >= 0 {
      SafeCallContract(s, b, e, PcallPropRaw(objIdx, nargs, PlainCall), nargs + 1, 1, host);
    }
  }

  /** duk_pnew: bad counts raise; otherwise the constructor and nargs arguments become 1 value. */
  lemma {:induction false} PnewCounts(s: seq<Value>, b: nat, e: nat, nargs: int, host: Host)
    requires Frame(s, b, e)
    ensures var p := PnewSpec(s, b, e, nargs, host);
      p.result.Err? <==> nargs < 0 || |s| - b < nargs + 1
    ensures var p := PnewSpec(s, b, e, nargs, host);
      p.result.Ok? ==> |p.vals| == |s| - nargs && p.vals[..|s| - nargs - 1] == s[..|s| - nargs - 1]
  {
    if nargs >= 0 {
      SafeCallContract(s, b, e, PnewHelper(nargs), nargs + 1, 1, host);
    }
  }


  /**
   * A safe call producing one result, whose callback behaves as the
   * unprotected step c, leaves c's stack when c returns and the caught
   * error alone above base when c raises.
   */
  lemma {:induction false} SafeCallOfStep(s: seq<Value>, b: nat, e: nat, cb: SafeCallback, consumed: nat, host: Host, c: Step)
    requires Frame(s, b, e) && Declares(cb, consumed) && 1 <= consumed <= |s| - b
    requires RunCallback(cb, s, b, e, consumed, host) == AsCallback(c)
    requires c.outcome.Pass? ==> |c.vals| == |s| - consumed + 1
    ensures var base := |s| - consumed;
      SafeCallSpec(s, b, e, cb, consumed, 1, host) ==
        if c.outcome.Pass? then ProtectedStep(c.vals, Ok(ExecSuccess))
        else ProtectedStep(s[..base] + [ErrorValue(c.outcome.error)], Ok(ExecError))
  {
    var base := |s| - consumed;
    var r := AsCallback(c);
    assert r.vals[..base] == s[..base];
    assert SafeCallSpec(s, b, e, cb, consumed, 1, host) == Settle(r, base, 1);
    SettleSingle(r, base);
  }

  /** With one result slot, the boundary keeps the callback's one result, or puts the error at base. */
  lemma {:induction false} SettleSingle(r: CallbackStep, base: nat)
    requires base <= |r.vals|
    requires r.result.Returned? ==> r.result.rc == 1 && |r.vals| == base + 1
    ensures Settle(r, base, 1) ==
      if r.result.Returned? then ProtectedStep(r.vals, Ok(ExecSuccess))
      else ProtectedStep(r.vals[..base] + [ErrorValue(r.result.error)], Ok(ExecError))
  {
    if r.result.Returned? {
      assert Fit(r.vals[base..], 1) == [r.vals[base]];
      assert r.vals == r.vals[..base] + [r.vals[base]];
    } else {
      assert Fit([ErrorValue(r.result.error)], 1) == [ErrorValue(r.result.error)];
    }
  }


  /**
   * duk_pcall against duk_call: the same insane-count rejection (raised,
   * not caught), the same stack when the call returns, and when duk_call
   * would raise, status ExecError with the error alone at the function's slot.
   */
  lemma {:induction false} PcallAgreesWithCall(s: seq<Value>, b: nat, e: nat, nargs: int, host: Host)
    requires Frame(s, b, e)
    ensures var p := PcallSpec(s, b, e, nargs, host);
      var c := CallSpec(s, b, e, nargs, host);
      if nargs < 0 || |s| - b < nargs + 1 then
        p == ProtectedStep(s, Err(Api(InvalidArgs))) && c == Step(s, Fail(Api(InvalidArgs)))
      else if c.outcome.Pass? then p == ProtectedStep(c.vals, Ok(ExecSuccess))
      else p == ProtectedStep(s[..|s| - nargs - 1] + [ErrorValue(c.outcome.error)], Ok(ExecError))
  {
    if 0 <= nargs && nargs + 1 <= |s| - b {
      var c := CallSpec(s, b, e, nargs, host);
      assert c == PcallRawSpec(s, b, e, nargs, PlainCall, host);
      SafeCallOfStep(s, b, e, PcallRaw(nargs, PlainCall), nargs + 1, host, c);
    }
  }

  /** duk_pcall_method (flags 0) against duk_call_method, in the same terms. */
  lemma {:induction false} PcallMethodAgreesWithCallMethod(s: seq<Value>, b: nat, e: nat, nargs: int, host: Host)
    requires Frame(s, b, e)
    ensures var p := PcallMethodFlagsSpec(s, b, e, nargs, PlainCall, host);
      var c := CallMethodSpec(s, b, nargs, host);
      if nargs < 0 || |s| - b < nargs + 2 then
        p == ProtectedStep(s, Err(Api(InvalidArgs))) && c == Step(s, Fail(Api(InvalidArgs)))
      else if c.outcome.Pass? then p == ProtectedStep(c.vals, Ok(ExecSuccess))
      else p == ProtectedStep(s[..|s| - nargs - 2] + [ErrorValue(c.outcome.error)], Ok(ExecError))
  {
    if 0 <= nargs && nargs + 2 <= |s| - b {
      var c := CallMethodSpec(s, b, nargs, host);
      assert c == PcallMethodRawSpec(s, b, nargs, PlainCall, host);
      SafeCallOfStep(s, b, e, PcallMethodRaw(nargs, PlainCall), nargs + 2, host, c);
    }
  }

  /**
   * duk_pcall_prop against duk_call_prop: once nargs is sane and the key
   * and arguments are present, every error duk_call_prop would raise
   * (a bad object index included) becomes ExecError at the key's slot.
   */
  lemma {:induction false} PcallPropAgreesWithCallProp(s: seq<Value>, b: nat, e: nat, objIdx: int, nargs: int, host: Host)
    requires Frame(s, b, e)
    ensures var p := PcallPropSpec(s, b, e, objIdx, nargs, host);
      var c := CallPropSpec(s, b, e, objIdx, nargs, host);
      if nargs < 0 || |s| - b < nargs + 1 then p == ProtectedStep(s, Err(Api(InvalidArgs)))
      else if c.outcome.Pass? then p == ProtectedStep(c.vals, Ok(ExecSuccess))
      else p == ProtectedStep(s[..|s| - nargs - 1] + [ErrorValue(c.outcome.error)], Ok(ExecError))
  {
    if 0 <= nargs && nargs + 1 <= |s| - b {
      var c := CallPropSpec(s, b, e, objIdx, nargs, host);
      assert c == PcallPropRawSpec(s, b, e, objIdx, nargs, PlainCall, host) by {
        PropRawIsCallProp(s, b, e, objIdx, nargs, host);
      }
      SafeCallOfStep(s, b, e, PcallPropRaw(objIdx, nargs, PlainCall), nargs + 1, host, c);
    }
  }

  /** Inside the boundary, duk__pcall_prop_raw does what duk_call_prop does once nargs is sane. */
  lemma {:induction false} PropRawIsCallProp(s: seq<Value>, b: nat, e: nat, objIdx: int, nargs: nat, host: Host)
    requires Frame(s, b, e) && nargs + 1 <= |s| - b
    ensures CallPropSpec(s, b, e, objIdx, nargs, host) == PcallPropRawSpec(s, b, e, objIdx, nargs, PlainCall, host)
  {
    var norm := NormalizeIndex(|s| - b, objIdx);
    if norm.Some? {
      var p := CallPropPrep(s, b, e, b + norm.value, nargs, host);
      CallPropValidIndex(s, b, e, objIdx, nargs, host, norm.value);
      PcallPropRawValidIndex(s, b, e, objIdx, nargs, PlainCall, host, norm.value);
      if p.outcome.Pass? {
        MethodCallAfterPrep(p.vals, b, nargs, host);
      }
    }
  }

  /** On the layout duk__call_prop_prep_stack leaves, duk_call_method dispatches at the looked-up function. */
  lemma MethodCallAfterPrep(t: seq<Value>, b: nat, nargs: nat, host: Host)
    requires b + nargs + 2 <= |t|
    ensures CallMethodSpec(t, b, nargs, host) == Dispatch(t, |t| - nargs - 2, PlainCall, host)
  {
    assert CallGetIdxFunc(|t| - b, nargs, 2) == Ok(|t| - nargs - 2 - b);
  }

  /** duk_pnew against duk_new, in the same terms. */
  lemma {:induction false} PnewAgreesWithNew(s: seq<Value>, b: nat, e: nat, nargs: int, host: Host)
    requires Frame(s, b, e)
    ensures var p := PnewSpec(s, b, e, nargs, host);
      var c := NewSpec(s, b, e, nargs, host);
      if nargs < 0 || |s| - b < nargs + 1 then
        p == ProtectedStep(s, Err(Api(InvalidArgs))) && c == Step(s, Fail(Api(InvalidArgs)))
      else if c.outcome.Pass? then p == ProtectedStep(c.vals, Ok(ExecSuccess))
      else p == ProtectedStep(s[..|s| - nargs - 1] + [ErrorValue(c.outcome.error)], Ok(ExecError))
  {
    if 0 <= nargs && nargs + 1 <= |s| - b {
      var c := NewSpec(s, b, e, nargs, host);
      SafeCallOfStep(s, b, e, PnewHelper(nargs), nargs + 1, host, c);
    }
  }
}
