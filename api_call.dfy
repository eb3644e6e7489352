/**
 * The call API of a Duktape thread: the value stack with its bottom, top
 * and end cursors, the current activation, and the entry points that shape
 * the stack for a call, dispatch it, protect it, and read the caller's
 * activation.  Every call and protected-call entry point is proved to
 * leave exactly the stack its specification in module StackEffects
 * describes.
 */
module ApiCall {
  import opened Values
  import opened StackEffects

  /** The activation flag bits the call API reads (DUK_ACT_FLAG_CONSTRUCT, DUK_ACT_FLAG_STRICT). */
  datatype ActFlag = Construct | Strict

  /** An in-progress call: the callable it runs (never a bound function) and its flags. */
  datatype Activation = Activation(func: Callee, flags: set<ActFlag>)

  /** The magic-bearing heap object of a callable, as a read frame. */
  function CalleeFootprint(c: Callee): set<object> {
    if c.NativeFunction? then {c.nf} else {}
  }

  class Thread {
    var valstack: seq<Value>   // the live slots [0, top)
    var bottom: nat
    var top: nat
    var end: nat
    var callstackCurr: Option<Activation>

    ghost predicate Valid()
      reads this
    {
      bottom <= top <= end && |valstack| == top
    }

    /** The frame is the caller's throughout: only the live slots change. */
    twostate predicate FrameKept()
      reads this
    {
      bottom == old(bottom) && end == old(end) && callstackCurr == old(callstackCurr)
    }

    /** duk_get_top: the number of values in the current frame. */
    function GetTop(): (n: nat)
      reads this
      requires Valid()
      ensures bottom + n == |valstack| && bottom + n <= end
    {
      top - bottom
    }

    /** duk_get_tval: the value at a relative index, if the index is valid. */
    function GetTval(idx: int): (r: Option<Value>)
      reads this
      requires Valid()
      ensures r.Some? <==> -(GetTop() as int) <= idx < GetTop()
    {
      match NormalizeIndex(GetTop(), idx)
      case None => None
      case Some(n) => Some(valstack[bottom + n])
    }

    /*
     * Stack primitives.  They belong to the stack API rather than to the
     * call API; each is given its documented effect and error.
     */

    method Push(v: Value) returns (r: Outcome)
      requires Valid()
      modifies this
      ensures Valid() && FrameKept()
      ensures old(top) == end ==> r == Fail(Api(PushBeyond)) && valstack == old(valstack)
      ensures old(top) < end ==> r == Pass && valstack == old(valstack) + [v]
    {
      if top >= end {
        return Fail(Api(PushBeyond));
      }
      valstack := valstack + [v];
      top := top + 1;
      r := Pass;
    }

    /** duk_dup: push a copy of the value at idx (space is checked first). */
    method Dup(idx: int) returns (r: Outcome)
      requires Valid()
      modifies this
      ensures Valid() && FrameKept()
      ensures old(top) == end ==> r == Fail(Api(PushBeyond)) && valstack == old(valstack)
      ensures old(top) < end && old(GetTval(idx)).None? ==> r == Fail(Api(InvalidIndex)) && valstack == old(valstack)
      ensures old(top) < end && old(GetTval(idx)).Some? ==> r == Pass && valstack == old(valstack) + [old(GetTval(idx)).value]
    {
      if top >= end {
        return Fail(Api(PushBeyond));
      }
      var tv := GetTval(idx);
      if tv.None? {
        return Fail(Api(InvalidIndex));
      }
      r := Push(tv.value);
    }

    /** duk_replace: pop the top value and write it over the slot at idx. */
    method Replace(idx: int) returns (r: Outcome)
      requires Valid()
      modifies this
      ensures Valid() && FrameKept()
      ensures old(GetTval(idx)).None? ==> r == Fail(Api(InvalidIndex)) && valstack == old(valstack)
      ensures old(GetTval(idx)).Some? ==>
        var p := bottom + NormalizeIndex(old(GetTop()), idx).value;
        r == Pass && valstack == old(valstack)[p := old(valstack)[old(top) - 1]][..old(top) - 1]
    {
      var n := NormalizeIndex(GetTop(), idx);
      if n.None? {
        return Fail(Api(InvalidIndex));
      }
      var p := bottom + n.value;
      valstack := valstack[p := valstack[top - 1]][..top - 1];
      top := top - 1;
      r := Pass;
    }

    /** duk_insert: move the top value down to idx, shifting the values above it up. */
    method Insert(idx: int) returns (r: Outcome)
      requires Valid()
      modifies this
      ensures Valid() && FrameKept()
      ensures old(GetTval(idx)).None? ==> r == Fail(Api(InvalidIndex)) && valstack == old(valstack)
      ensures old(GetTval(idx)).Some? ==>
        var p := bottom + NormalizeIndex(old(GetTop()), idx).value;
        var last := old(top) - 1;
        r == Pass && valstack == old(valstack)[..p] + [old(valstack)[last]] + old(valstack)[p..last]
    {
      var n := NormalizeIndex(GetTop(), idx);
      if n.None? {
        return Fail(Api(InvalidIndex));
      }
      var p := bottom + n.value;
      valstack := valstack[..p] + [valstack[top - 1]] + valstack[p..top - 1];
      r := Pass;
    }

    /** duk_insert_undefined: push undefined, then insert it at idx (0 <= idx <= top). */
    method InsertUndefined(idx: nat) returns (r: Outcome)
      requires Valid() && idx <= GetTop()
      modifies this
      ensures Valid() && FrameKept()
      ensures old(top) == end ==> r == Fail(Api(PushBeyond)) && valstack == old(valstack)
      ensures old(top) < end ==>
        r == Pass && valstack == old(valstack)[..bottom + idx] + [Undefined] + old(valstack)[bottom + idx..]
    {
      r := Push(Undefined);
      if r.Fail? {
        return;
      }
      r := Insert(idx);
    }

    /** duk_push_object: push a freshly allocated plain object. */
    method PushObject(host: Host) returns (r: Outcome)
      requires Valid()
      modifies this
      ensures Valid() && FrameKept()
      ensures old(top) == end ==> r == Fail(Api(PushBeyond)) && valstack == old(valstack)
      ensures old(top) < end && host.newObject.Err? ==> r == Fail(host.newObject.error) && valstack == old(valstack)
      ensures old(top) < end && host.newObject.Ok? ==>
        r == Pass && valstack == old(valstack) + [Object(host.newObject.value)]
    {
      if top >= end {
        return Fail(Api(PushBeyond));
      }
      match host.newObject
      case Err(err) => r := Fail(err);
      case Ok(id) => r := Push(Object(id));
    }

    /** duk_get_prop: replace the key on top by obj[key], as the lookup decides. */
    method GetProp(objIdx: int, host: Host) returns (r: Outcome)
      requires Valid() && bottom < top
      modifies this
      ensures Valid() && FrameKept()
      ensures old(GetTval(objIdx)).None? ==> r == Fail(Api(InvalidIndex)) && valstack == old(valstack)
      ensures old(GetTval(objIdx)).Some? ==>
        var key := old(valstack)[old(top) - 1];
        match host.getProp(old(GetTval(objIdx)).value, key)
        case Normal(v) => r == Pass && valstack == old(valstack)[..old(top) - 1] + [v]
        case Abrupt(err) => r == Fail(err) && valstack == old(valstack)
    {
      var obj := GetTval(objIdx);
      if obj.None? {
        return Fail(Api(InvalidIndex));
      }
      match host.getProp(obj.value, valstack[top - 1])
      case Normal(v) =>
        valstack := valstack[..top - 1] + [v];
        r := Pass;
      case Abrupt(err) =>
        r := Fail(err);
    }

    /*
     * The execution engine's entry points, reduced to their effect on the
     * caller's stack.
     */

    /** duk_handle_call_unprotected: the span from idxFunc to top becomes one result. */
    method HandleCallUnprotected(idxFunc: nat, flags: CallFlags, host: Host) returns (r: Outcome)
      requires Valid() && idxFunc < GetTop()
      modifies this
      ensures Valid() && FrameKept()
      ensures Step(valstack, r) == Dispatch(old(valstack), bottom + idxFunc, flags, host)
    {
      var f := bottom + idxFunc;
      match host.engine(valstack[f..], flags)
      case Normal(v) =>
        valstack := valstack[..f] + [v];
        top := f + 1;
        r := Pass;
      case Abrupt(err) =>
        r := Fail(err);
    }

    /** duk_handle_call_unprotected_nargs: the function sits nargs + 2 below top. */
    method HandleCallUnprotectedNargs(nargs: nat, flags: CallFlags, host: Host) returns (r: Outcome)
      requires Valid() && nargs + 2 <= GetTop()
      modifies this
      ensures Valid() && FrameKept()
      ensures Step(valstack, r) == Dispatch(old(valstack), old(top) - nargs - 2, flags, host)
    {
      r := HandleCallUnprotected(GetTop() - nargs - 2, flags, host);
    }

    /*
     * The call API.
     */

    /** The replace-dup-insert tail of the property-call rewrite, which cannot fail once the lookup is on top. */
    method MoveFuncAndThis(normalizedObjIdx: nat, nargs: nat, ghost s: seq<Value>, ghost func: Value)
      requires Valid() && valstack == s + [func]
      requires nargs + 1 <= |s| - bottom && normalizedObjIdx < |s| - bottom
      modifies this
      ensures Valid() && FrameKept()
      ensures valstack == PropCallLayout(s, |s| - nargs - 1, bottom + normalizedObjIdx, func)
    {
      ghost var k := |s| - nargs - 1;
      ghost var obj := bottom + normalizedObjIdx;
      ReplaceTop(nargs, s, func);
      // [... func arg1 ... argN]
      ghost var s3 := s[k := func];
      DupObject(normalizedObjIdx, s3);
      // [... func arg1 ... argN obj]
      InsertBelowArgs(nargs, s3, s3[obj]);
      // [... func obj arg1 ... argN]
    }
    /** The dup step: a copy of the target object goes on top. */
    method DupObject(normalizedObjIdx: nat, ghost s3: seq<Value>)
      requires Valid() && valstack == s3 && top < end && normalizedObjIdx < |s3| - bottom
      modifies this
      ensures Valid() && FrameKept()
      ensures valstack == s3 + [s3[bottom + normalizedObjIdx]]
    {
      assert GetTval(normalizedObjIdx) == Some(s3[bottom + normalizedObjIdx]);
      var duped := Dup(normalizedObjIdx);
    }
    /** The insert step: the value on top moves down to sit just below the nargs arguments. */
    method InsertBelowArgs(nargs: nat, ghost s3: seq<Value>, ghost x: Value)
      requires Valid() && valstack == s3 + [x] && nargs + 1 <= |s3| - bottom
      modifies this
      ensures Valid() && FrameKept()
      ensures valstack == s3[..|s3| - nargs] + [x] + s3[|s3| - nargs..]
    {
      ghost var k := |s3| - nargs - 1;
      assert NormalizeIndex(GetTop(), -(nargs as int) - 1) == Some(k + 1 - bottom);
      var inserted := Insert(-(nargs as int) - 1);
      InsertFromTop(s3, k + 1, x);
    }

    /** The replace step: the looked-up function on top overwrites the key, nargs + 1 slots down. */
    method ReplaceTop(nargs: nat, ghost s: seq<Value>, ghost func: Value)
      requires Valid() && valstack == s + [func] && nargs + 1 <= |s| - bottom
      modifies this
      ensures Valid() && FrameKept()
      ensures valstack == s[|s| - nargs - 1 := func]
    {
      ghost var k := |s| - nargs - 1;
      assert NormalizeIndex(GetTop(), -(nargs as int) - 2) == Some(k - bottom);
      var replaced := Replace(-(nargs as int) - 2);
      assert replaced == Pass;
      ReplaceFromTop(s, k, func);
    }

    /** The lookup-and-move part of the property-call rewrite, once the key has been copied to the top. */
    method LookupAndMove(normalizedObjIdx: nat, nargs: nat, host: Host, ghost s: seq<Value>) returns (r: Outcome)
      requires Valid() && nargs + 1 <= |s| - bottom && normalizedObjIdx < |s| - bottom && |s| < end
      requires valstack == s + [s[|s| - nargs - 1]]
      modifies this
      ensures Valid() && FrameKept()
      ensures Step(valstack, r) == CallPropPrep(s, bottom, end, bottom + normalizedObjIdx, nargs, host)
    {
      ghost var obj := bottom + normalizedObjIdx;
      ghost var k := |s| - nargs - 1;
      assert GetTval(normalizedObjIdx) == Some(s[obj]) && valstack[top - 1] == s[k];
      // [... key arg1 ... argN key]
      r := GetProp(normalizedObjIdx, host);
      if r.Fail? {
        CallPropPrepLookupFails(s, bottom, end, obj, nargs, host, k, r.error);
        return;
      }
      // [... key arg1 ... argN func]
      PlaceLookedUp(normalizedObjIdx, nargs, host, s, host.getProp(s[obj], s[k]).value);
      // [... func this arg1 ... argN]
    }

    /** The looked-up function on top is moved into the key's slot, with the object after it. */
    method PlaceLookedUp(normalizedObjIdx: nat, nargs: nat, host: Host, ghost s: seq<Value>, ghost func: Value)
      requires Valid() && valstack == s + [func] && |s| < end
      requires nargs + 1 <= |s| - bottom && normalizedObjIdx < |s| - bottom
      requires host.getProp(s[bottom + normalizedObjIdx], s[|s| - nargs - 1]) == Normal(func)
      modifies this
      ensures Valid() && FrameKept()
      ensures Step(valstack, Pass) == CallPropPrep(s, bottom, end, bottom + normalizedObjIdx, nargs, host)
    {
      MoveFuncAndThis(normalizedObjIdx, nargs, s, func);
      CallPropPrepPass(s, bottom, end, bottom + normalizedObjIdx, nargs, host, |s| - nargs - 1, func);
    }

    /** duk__call_prop_prep_stack: [.. key a1..aN] to [.. func this a1..aN] by dup, replace, insert. */
    method CallPropPrepStack(normalizedObjIdx: nat, nargs: nat, host: Host) returns (r: Outcome)
      requires Valid() && normalizedObjIdx < GetTop()
      modifies this
      ensures Valid() && FrameKept()
      ensures Step(valstack, r) == CallPropPrep(old(valstack), bottom, end, bottom + normalizedObjIdx, nargs, host)
    {
      ghost var s := valstack;
      // [... key arg1 ... argN]
      r := Dup(-(nargs as int) - 1);
      if r.Fail? {
        CallPropPrepDupFails(s, bottom, end, bottom + normalizedObjIdx, nargs, host, r.error.kind);
        return;
      }
      assert valstack == s + [s[|s| - nargs - 1]];
      r := LookupAndMove(normalizedObjIdx, nargs, host, s);
    }

    /** duk_call: function and nargs arguments on top; undefined is the 'this' binding. */
    method Call(nargs: int, host: Host) returns (r: Outcome)
      requires Valid()
      modifies this
      ensures Valid() && FrameKept()
      ensures Step(valstack, r) == CallSpec(old(valstack), bottom, end, nargs, host)
    {
      var idxFunc := CallGetIdxFunc(GetTop(), nargs, 1);
      if idxFunc.Err? {
        return Fail(idxFunc.error);
      }
      r := InsertUndefined(idxFunc.value + 1);
      if r.Fail? {
        return;
      }
      r := HandleCallUnprotected(idxFunc.value, PlainCall, host);
    }

    /** duk_call_method: function, 'this' and nargs arguments on top. */
    method CallMethod(nargs: int, host: Host) returns (r: Outcome)
      requires Valid()
      modifies this
      ensures Valid() && FrameKept()
      ensures Step(valstack, r) == CallMethodSpec(old(valstack), bottom, nargs, host)
    {
      var idxFunc := CallGetIdxFunc(GetTop(), nargs, 2);
      if idxFunc.Err? {
        return Fail(idxFunc.error);
      }
      r := HandleCallUnprotected(idxFunc.value, PlainCall, host);
    }

    /** duk_call_prop: call obj[key] with obj as 'this'; key and nargs arguments on top. */
    method CallProp(objIdx: int, nargs: int, host: Host) returns (r: Outcome)
      requires Valid()
      modifies this
      ensures Valid() && FrameKept()
      ensures Step(valstack, r) == CallPropSpec(old(valstack), bottom, end, objIdx, nargs, host)
    {
      var obj := NormalizeIndex(GetTop(), objIdx);
      if obj.None? {
        return Fail(Api(InvalidIndex));
      }
      if nargs < 0 {
        return Fail(Api(InvalidArgs));
      }
      r := CallPropPrepStack(obj.value, nargs, host);
      if r.Fail? {
        return;
      }
      r := CallMethod(nargs, host);
    }

    /** duk_new: a default instance is inserted as 'this' and the call is a constructor call. */
    method New(nargs: int, host: Host) returns (r: Outcome)
      requires Valid()
      modifies this
      ensures Valid() && FrameKept()
      ensures Step(valstack, r) == NewSpec(old(valstack), bottom, end, nargs, host)
    {
      var idxFunc := CallGetIdxFunc(GetTop(), nargs, 1);
      if idxFunc.Err? {
        return Fail(idxFunc.error);
      }
      r := InsertInstance(idxFunc.value, host);
      if r.Fail? {
        return;
      }
      r := HandleCallUnprotected(idxFunc.value, ConstructorCall, host);
    }

    /** duk_push_object then duk_insert(idxFunc + 1): the default instance goes just above the function. */
    method InsertInstance(idxFunc: nat, host: Host) returns (r: Outcome)
      requires Valid() && idxFunc < GetTop()
      modifies this
      ensures Valid() && FrameKept()
      ensures old(top) == end ==> r == Fail(Api(PushBeyond)) && valstack == old(valstack)
      ensures old(top) < end && host.newObject.Err? ==> r == Fail(host.newObject.error) && valstack == old(valstack)
      ensures old(top) < end && host.newObject.Ok? ==>
        r == Pass && valstack == WithReceiver(old(valstack), bottom + idxFunc, Object(host.newObject.value))
    {
      ghost var s := valstack;
      ghost var f := bottom + idxFunc;
      r := PushObject(host);
      if r.Fail? {
        return;
      }
      ghost var inst := Object(host.newObject.value);
      assert NormalizeIndex(GetTop(), idxFunc + 1) == Some(idxFunc + 1);
      var inserted := Insert(idxFunc + 1);
      assert inserted == Pass;
      assert valstack == WithReceiver(s, f, inst) by {
        InsertFromTop(s, f + 1, inst);
      }
    }

    /*
     * Safe-call callbacks.  Each returns one value (Pass) or raises (Fail).
     */

    /** duk__pcall_raw */
    method PcallRaw(nargs: nat, flags: CallFlags, host: Host) returns (r: Outcome)
      requires Valid() && nargs + 1 <= GetTop()
      modifies this
      ensures Valid() && FrameKept()
      ensures Step(valstack, r) == PcallRawSpec(old(valstack), bottom, end, nargs, flags, host)
    {
      var idxFunc := CallGetIdxFuncUnvalidated(GetTop(), nargs, 1);
      r := InsertUndefined(idxFunc + 1);
      if r.Fail? {
        return;
      }
      r := HandleCallUnprotected(idxFunc, flags, host);
    }

    /** duk__pcall_method_raw */
    method PcallMethodRaw(nargs: nat, flags: CallFlags, host: Host) returns (r: Outcome)
      requires Valid() && nargs + 2 <= GetTop()
      modifies this
      ensures Valid() && FrameKept()
      ensures Step(valstack, r) == PcallMethodRawSpec(old(valstack), bottom, nargs, flags, host)
    {
      var idxFunc := CallGetIdxFuncUnvalidated(GetTop(), nargs, 2);
      r := HandleCallUnprotected(idxFunc, flags, host);
    }

    /** duk__pcall_prop_raw */
    method PcallPropRaw(objIdx: int, nargs: nat, flags: CallFlags, host: Host) returns (r: Outcome)
      requires Valid() && nargs + 1 <= GetTop()
      modifies this
      ensures Valid() && FrameKept()
      ensures Step(valstack, r) == PcallPropRawSpec(old(valstack), bottom, end, objIdx, nargs, flags, host)
    {
      var obj := NormalizeIndex(GetTop(), objIdx);
      assert GetTop() == |valstack| - bottom;
      if obj.None? {
        return Fail(Api(InvalidIndex));
      }
      PcallPropRawValidIndex(valstack, bottom, end, objIdx, nargs, flags, host, obj.value);
      r := PrepAndDispatch(obj.value, nargs, flags, host);
    }

    /** The body of duk__pcall_prop_raw after the object index is made absolute. */
    method PrepAndDispatch(normalizedObjIdx: nat, nargs: nat, flags: CallFlags, host: Host) returns (r: Outcome)
      requires Valid() && nargs + 1 <= GetTop() && normalizedObjIdx < GetTop()
      modifies this
      ensures Valid() && FrameKept()
      ensures var p := CallPropPrep(old(valstack), bottom, end, bottom + normalizedObjIdx, nargs, host);
        Step(valstack, r) == if p.outcome.Fail? then p else Dispatch(p.vals, |p.vals| - nargs - 2, flags, host)
    {
      ghost var p := CallPropPrep(valstack, bottom, end, bottom + normalizedObjIdx, nargs, host);
      r := CallPropPrepStack(normalizedObjIdx, nargs, host);
      assert Step(valstack, r) == p;
      if r.Fail? {
        return;
      }
      assert |p.vals| - nargs - 2 == top - nargs - 2;
      r := HandleCallUnprotectedNargs(nargs, flags, host);
    }

    /** duk__pnew_helper */
    method PnewHelper(nargs: int, host: Host) returns (r: Outcome)
      requires Valid()
      modifies this
      ensures Valid() && FrameKept()
      ensures Step(valstack, r) == NewSpec(old(valstack), bottom, end, nargs, host)
    {
      r := New(nargs, host);
    }

    /** The boundary's call of the callback, with its argument record. */
    method InvokeCallback(cb: SafeCallback, nargs: int, host: Host) returns (res: CallbackResult)
      requires Valid() && Declares(cb, nargs) && 0 <= nargs <= GetTop()
      modifies this
      ensures Valid() && FrameKept()
      ensures CallbackStep(valstack, res) == RunCallback(cb, old(valstack), bottom, end, nargs, host)
    {
      var o: Outcome;
      match cb {
        case PcallRaw(n, fl) =>
          o := PcallRaw(n, fl, host);
        case PcallMethodRaw(n, fl) =>
          o := PcallMethodRaw(n, fl, host);
        case PcallPropRaw(obj, n, fl) =>
          o := PcallPropRaw(obj, n, fl, host);
        case PnewHelper(n) =>
          o := PnewHelper(n, host);
        case HostFunction(run) =>
          var base := top - nargs;
          match run(valstack[base..]) {
            case Returns(rs) =>
              if base + |rs| > end {
                // its own pushes would have failed
                return Raised(Api(PushBeyond));
              }
              valstack := valstack[..base] + rs;
              top := |valstack|;
              return Returned(|rs|);
            case Raises(v) =>
              return Raised(Thrown(v));
          }
      }
      res := AsCallback(Step(valstack, o)).result;
    }

    /*
     * Protected calls.
     */

    /**
     * duk_handle_safe_call: run the callback behind a boundary; its rc
     * results, or the caught error, replace the nargs consumed values,
     * fitted to exactly nrets slots.
     */
    method HandleSafeCall(cb: SafeCallback, nargs: nat, nrets: nat, host: Host) returns (rc: ExecStatus)
      requires Valid() && Declares(cb, nargs) && SafeCallAdmits(bottom, top, end, nargs, nrets)
      modifies this
      ensures Valid() && FrameKept()
      ensures ProtectedStep(valstack, Ok(rc)) == SafeCallSpec(old(valstack), bottom, end, cb, nargs, nrets, host)
    {
      var base := top - nargs;
      ghost var s := valstack;
      SafeCallAdmitted(s, bottom, end, cb, nargs, nrets, host);
      ghost var run := RunCallback(cb, s, bottom, end, nargs, host);
      assert SafeCallSpec(s, bottom, end, cb, nargs, nrets, host) == Settle(run, base, nrets);
      var res := InvokeCallback(cb, nargs, host);
      assert CallbackStep(valstack, res) == run;
      rc := Unwind(res, base, nrets);
    }

    /**
     * The boundary's unwinding: the callback's rc results (or the caught
     * error) move down to base and are fitted to nrets slots.
     */
    method Unwind(res: CallbackResult, base: nat, nrets: nat) returns (rc: ExecStatus)
      requires Valid() && bottom <= base <= top && base + nrets <= end
      requires res.Returned? ==> res.rc <= top - base
      modifies this
      ensures Valid() && FrameKept()
      ensures ProtectedStep(valstack, Ok(rc)) == Settle(CallbackStep(old(valstack), res), base, nrets)
    {
      ghost var before := CallbackStep(valstack, res);
      var results: seq<Value>;
      if res.Returned? {
        results := valstack[|valstack| - res.rc..];
        rc := ExecSuccess;
      } else {
        results := [ErrorValue(res.error)];
        rc := ExecError;
      }
      assert results == Outputs(before);
      valstack := valstack[..base] + Fit(results, nrets);
      top := |valstack|;
    }

    /** duk_safe_call: reject insane counts (raised, not caught), then call behind the boundary. */
    method SafeCall(cb: SafeCallback, nargs: int, nrets: int, host: Host) returns (r: Result<ExecStatus>)
      requires Valid() && Declares(cb, nargs)
      modifies this
      ensures Valid() && FrameKept()
      ensures ProtectedStep(valstack, r) == SafeCallSpec(old(valstack), bottom, end, cb, nargs, nrets, host)
    {
      if nargs < 0 || nrets < 0 || top < bottom + nargs || end + nargs < top + nrets {
        return Err(Api(InvalidArgs));
      }
      var rc := HandleSafeCall(cb, nargs, nrets, host);
      r := Ok(rc);
    }

    /** duk_pcall */
    method Pcall(nargs: int, host: Host) returns (r: Result<ExecStatus>)
      requires Valid()
      modifies this
      ensures Valid() && FrameKept()
      ensures ProtectedStep(valstack, r) == PcallSpec(old(valstack), bottom, end, nargs, host)
    {
      if nargs < 0 {
        return Err(Api(InvalidArgs));
      }
      r := SafeCall(SafeCallback.PcallRaw(nargs, PlainCall), nargs + 1, 1, host);
    }

    /** duk_pcall_method_flags */
    method PcallMethodFlags(nargs: int, flags: CallFlags, host: Host) returns (r: Result<ExecStatus>)
      requires Valid()
      modifies this
      ensures Valid() && FrameKept()
      ensures ProtectedStep(valstack, r) == PcallMethodFlagsSpec(old(valstack), bottom, end, nargs, flags, host)
    {
      if nargs < 0 {
        return Err(Api(InvalidArgs));
      }
      r := SafeCall(SafeCallback.PcallMethodRaw(nargs, flags), nargs + 2, 1, host);
    }

    /** duk_pcall_method: duk_pcall_method_flags with no call flags. */
    method PcallMethod(nargs: int, host: Host) returns (r: Result<ExecStatus>)
      requires Valid()
      modifies this
      ensures Valid() && FrameKept()
      ensures ProtectedStep(valstack, r) == PcallMethodFlagsSpec(old(valstack), bottom, end, nargs, PlainCall, host)
    {
      r := PcallMethodFlags(nargs, PlainCall, host);
    }

    /** duk_pcall_prop */
    method PcallProp(objIdx: int, nargs: int, host: Host) returns (r: Result<ExecStatus>)
      requires Valid()
      modifies this
      ensures Valid() && FrameKept()
      ensures ProtectedStep(valstack, r) == PcallPropSpec(old(valstack), bottom, end, objIdx, nargs, host)
    {
      if nargs < 0 {
        return Err(Api(InvalidArgs));
      }
      r := SafeCall(SafeCallback.PcallPropRaw(objIdx, nargs, PlainCall), nargs + 1, 1, host);
    }

    /** duk_pnew */
    method Pnew(nargs: int, host: Host) returns (r: Result<ExecStatus>)
      requires Valid()
      modifies this
      ensures Valid() && FrameKept()
      ensures ProtectedStep(valstack, r) == PnewSpec(old(valstack), bottom, end, nargs, host)
    {
      if nargs < 0 {
        return Err(Api(InvalidArgs));
      }
      r := SafeCall(SafeCallback.PnewHelper(nargs), nargs + 1, 1, host);
    }

    /*
     * The caller's activation.
     */

    /** duk_is_constructor_call: the current activation was entered by 'new'; false with none. */
    function IsConstructorCall(): (r: bool)
      reads this
      ensures callstackCurr.None? ==> !r
      ensures callstackCurr.Some? ==> (r <==> Construct in callstackCurr.value.flags)
    {
      match callstackCurr
      case None => false
      case Some(act) => Construct in act.flags
    }

    /** duk_require_constructor_call: a TypeError unless the current call is a constructor call. */
    method RequireConstructorCall() returns (r: Outcome)
      ensures r.Pass? <==> IsConstructorCall()
      ensures r.Fail? ==> r.error == Api(ConstructOnly)
    {
      if !IsConstructorCall() {
        return Fail(Api(ConstructOnly));
      }
      r := Pass;
    }

    /** duk_is_strict_call: the current activation's strictness; strict when nothing runs. */
    function IsStrictCall(): (strict: bool)
      reads this
      ensures callstackCurr.None? ==> strict
      ensures callstackCurr.Some? ==> (strict <==> Strict in callstackCurr.value.flags)
    {
      match callstackCurr
      case None => true
      case Some(act) => Strict in act.flags
    }

    /** The native-function object whose magic the current activation reads, if any. */
    function CurrentFootprint(): set<object>
      reads this
    {
      match callstackCurr
      case None => {}
      case Some(act) => CalleeFootprint(act.func)
    }

    /**
     * duk_get_current_magic: the magic of the running native function or
     * lightfunc; 0 with no activation or when a script function runs.
     */
    function GetCurrentMagic(): (m: int)
      reads this, CurrentFootprint()
      ensures -0x8000 <= m < 0x8000
      ensures callstackCurr.None? ==> m == 0
      ensures callstackCurr.Some? && callstackCurr.value.func.ScriptFunction? ==> m == 0
      ensures callstackCurr.Some? && !callstackCurr.value.func.ScriptFunction? ==>
        m == CalleeMagic(callstackCurr.value.func).value as int
    {
      match callstackCurr
      case None => 0
      case Some(act) =>
        match act.func
        case LightFunction(_, lm) => lm as int
        case NativeFunction(nf) => nf.magic as int
        case ScriptFunction(_) => 0
    }

    /** The native-function object at idx whose magic GetMagic reads and SetMagic writes, if any. */
    function MagicFootprint(idx: int): set<object>
      reads this
      requires Valid()
    {
      match GetTval(idx)
      case Some(Function(NativeFunction(nf))) => {nf}
      case _ => {}
    }

    /**
     * duk_get_magic: the magic of the native function or lightfunc at idx;
     * a RangeError for an invalid index, a TypeError for any other value.
     */
    function GetMagic(idx: int): (r: Result<int>)
      reads this, MagicFootprint(idx)
      requires Valid()
      ensures r.Err? ==> (r.error == Api(InvalidIndex) <==> GetTval(idx).None?)
      ensures r.Err? ==> r.error == Api(InvalidIndex) || r.error == Api(UnexpectedType)
      ensures r.Ok? <==> GetTval(idx).Some? && GetTval(idx).value.Function? &&
                         !GetTval(idx).value.callee.ScriptFunction?
      ensures r.Ok? ==> r.value == CalleeMagic(GetTval(idx).value.callee).value as int
    {
      match GetTval(idx)
      case None => Err(Api(InvalidIndex))
      case Some(v) =>
        if v.Function? && v.callee.NativeFunction? then Ok(v.callee.nf.magic as int)
        else if v.Function? && v.callee.LightFunction? then Ok(v.callee.lfMagic as int)
        else Err(Api(UnexpectedType))
    }

    /**
     * A running native function or lightfunc, found on the stack, reports
     * through duk_get_magic the magic duk_get_current_magic gives it; a
     * running script function has none to report.
     */
    lemma CurrentMagicIsItsMagic(idx: int)
      requires Valid() && callstackCurr.Some? && GetTval(idx) == Some(Function(callstackCurr.value.func))
      ensures callstackCurr.value.func.ScriptFunction? ==>
        GetMagic(idx) == Err(Api(UnexpectedType)) && GetCurrentMagic() == 0
      ensures !callstackCurr.value.func.ScriptFunction? ==> GetMagic(idx) == Ok(GetCurrentMagic())
    {
    }

    /** duk_set_magic: store magic, cast to 16 bits, in the native function at idx. */
    method SetMagic(idx: int, magic: int) returns (r: Outcome)
      requires Valid()
      modifies MagicFootprint(idx)
      ensures r.Pass? <==> MagicFootprint(idx) != {}
      ensures r.Fail? ==> r.error == Api(UnexpectedType)
      ensures r.Pass? ==> GetMagic(idx) == Ok(ToInt16(magic) as int)
    {
      var tv := GetTval(idx);
      if tv.Some? && tv.value.Function? && tv.value.callee.NativeFunction? {
        tv.value.callee.nf.magic := ToInt16(magic);
        return Pass;
      }
      r := Fail(Api(UnexpectedType));
    }

    /**
     * duk_resolve_nonbound_function: a bound function on top is replaced
     * by its target (pushed, then moved down); any other value stays.
     */
    method ResolveNonboundFunction() returns (r: Outcome)
      requires Valid() && bottom < top
      modifies this
      ensures Valid() && FrameKept()
      ensures r.Fail? <==> old(valstack[top - 1]).BoundFunction? && old(top) == end
      ensures r.Fail? ==> r.error == Api(PushBeyond) && valstack == old(valstack)
      ensures r.Pass? ==> valstack == old(valstack)[old(top) - 1 := ResolveNonbound(old(valstack[top - 1]))]
    {
      var v := valstack[top - 1];
      if v.BoundFunction? {
        r := Push(Function(v.target));
        if r.Fail? {
          return;
        }
        r := Replace(-2);
      } else {
        r := Pass;
      }
    }
  }
}
