# Duktape call API: a verified model

This project models the call-invocation API of Duktape's value stack, in
`src-input/duk_api_call.c`. That is the part of the public C API that does
the following:

- finds the function on the value stack (`duk__call_get_idx_func`);
- shapes the stack for a call: an `undefined` receiver for `duk_call`, a
  default instance for `duk_new`, and a property lookup for
  `duk_call_prop`;
- hands the call to the execution engine;
- wraps those calls in protected variants (`duk_pcall`, `duk_pcall_method`,
  `duk_pcall_prop`, `duk_pnew`) built on `duk_safe_call`;
- answers questions about the current activation: constructor call, strict
  call and the function's magic;
- resolves a bound function to its target.

The model has three modules.

- **`Values`** (`values.dfy`) holds the tagged values the API moves around:
  - primitives and objects;
  - the three kinds of callable (script functions, heap native functions
    with an updatable 16-bit magic, and lightfuncs);
  - bound functions, whose target is a non-bound callable by construction;
  - the API's own errors, and the C cast to `duk_int16_t`.
- **`StackEffects`** (`stack_effects.dfy`) gives the effect of every entry
  point on the value stack as a function of the stack before the call:
  - A stack is the sequence of live slots `[0, top)`, with the frame bottom
    `b` and the allocated end `e`. API indices are relative to `b`.
  - The engine, the property lookup and the allocation of a default
    instance are not visible from this file, so they are given as a `Host`
    value. A host's own safe-call function is the `HostFunction` case of
    `SafeCallback`.
  - The properties are proved there as lemmas: the stack layouts, the
    admission test of `duk_safe_call`, and each protected call against its
    unprotected twin.
- **`ApiCall`** (`api_call.dfy`) is the thread:
  - It is a class with the value stack (`valstack`) and its `bottom`, `top`
    and `end` cursors, plus the current activation.
  - Its methods change the stack in place through dup, replace and insert,
    as the C code does.
  - Each call and protected-call entry point is proved to leave exactly
    the stack, and the outcome, that its `StackEffects` function describes.
  - `ResolveNonboundFunction` states its effect through
    `Values.ResolveNonbound`.
  - The stack primitives (`Push`, `Dup`, `Replace`, `Insert`,
    `InsertUndefined`, `PushObject`, `GetProp`) state their effect in their
    own contracts.
  - No method changes the frame bottom, the end or the activation.
    `SetMagic` changes the magic of a native function on the heap, and
    nothing else.

An API call that raises is modelled as an outcome `Fail(error)`. The stack
is left as it was at the point of the raise. A protected entry point
returns `Ok(ExecSuccess)` or `Ok(ExecError)`, or `Err` when it raises
before entering the boundary.

## Model

| member | source | states |
|---|---|---|
| Values.ToInt16 | src-input/duk_api_call.c:467 | the `(duk_int16_t)` cast keeps values already in the 16-bit range, and the result differs from the input by a multiple of 2^16 |
| Values.ToInt16Congruent | src-input/duk_api_call.c:467 | the cast depends only on the value modulo 2^16 |
| Values.ResolveNonbound | src-input/duk_api_call.c:477-506 | a bound function becomes its target callable; any other value is unchanged; the result is never bound |
| Values.ResolveNonboundIdempotent | src-input/duk_api_call.c:494-498 | resolving twice equals resolving once, because a bound function's target is never bound |
| StackEffects.NormalizeIndex | src-input/duk_api_call.c:154 | an index is accepted exactly when `-size <= idx < size`; the absolute index is idx, or size + idx for a negative idx |
| StackEffects.CallGetIdxFunc | src-input/duk_api_call.c:46-60 | Invalid-Args exactly when `nargs < 0` or `top - nargs - other < 0`; otherwise the index is `top - nargs - other`, a valid stack index with `other` slots above it |
| StackEffects.CallGetIdxFuncUnvalidated | src-input/duk_api_call.c:66-78 | under the callers' guarantees (sane nargs, enough values), it gives the same index as the validated form |
| StackEffects.SignOfOr | src-input/duk_api_call.c:294 | for 32-bit two's complement counts, the bitwise OR of nargs and nrets is negative exactly when either count is negative |
| StackEffects.SafeCallAdmits | src-input/duk_api_call.c:294-296 | admission holds exactly when nargs and nrets are non-negative, the nargs values lie within the frame, and nrets results fit below end |
| StackEffects.WithReceiver | src-input/duk_api_call.c:121 | the receiver lands at idx_func + 1; everything up to the function is unchanged and the arguments shift up by one |
| StackEffects.Dispatch | src-input/duk_api_call.c:124 | when the engine returns, the span from idx_func to top is replaced by its single result and everything below is unchanged; when it raises, the stack is unchanged |
| StackEffects.CallSpec | src-input/duk_api_call.c:110-125 | duk_call raises Invalid-Args, with the stack untouched, exactly when nargs is negative or the frame holds fewer than nargs + 1 values; otherwise it keeps every slot below the function and, on success, leaves one value in place of the function and its arguments; bottom and end never move |
| StackEffects.CallMethodSpec | src-input/duk_api_call.c:127-140 | the count check of duk_call_method raises Invalid-Args, with the stack untouched, when nargs is negative or the frame holds fewer than nargs + 2 values; otherwise it keeps every slot below the function and, on success, leaves one value in place of the function, 'this' and the arguments |
| StackEffects.CallMethodShape | src-input/duk_api_call.c:127-140 | duk_call_method: Invalid-Args for bad counts; otherwise the engine sees the caller's `[func this a1..aN]` unchanged, and its result replaces that span, or its raise leaves the stack as it was. Nothing is pushed first, so a callee's Invalid-Args leaves the same step as the count check |
| StackEffects.CallShape | src-input/duk_api_call.c:110-125 | duk_call: Invalid-Args for bad counts, push-beyond on a full stack; otherwise the engine sees `[func undefined a1..aN]` and its result replaces that span |
| StackEffects.NewSpec | src-input/duk_api_call.c:310-323 | duk_new keeps every slot below the function, and on success leaves exactly one value in place of the function and its arguments |
| StackEffects.NewShape | src-input/duk_api_call.c:310-323 | duk_new: as duk_call, but 'this' is the freshly allocated default instance, the constructor-call flag is set, and an allocation failure is raised |
| StackEffects.CallPropPrep | src-input/duk_api_call.c:83-108 | the rewrite never moves bottom or end; on success it grows the stack by exactly one |
| StackEffects.CallPropPrepLayout | src-input/duk_api_call.c:83-108 | success holds exactly when there is room, the key exists and the lookup returns. On success, `[.. key a1..aN]` becomes `[.. func obj a1..aN]`: func is the looked-up property, obj is a copy of the object slot, and the slots below the key and the arguments are unchanged. On failure, the old stack is a prefix of the new one |
| StackEffects.PropCallLayout | src-input/duk_api_call.c:93-106 | the layout grows the stack by one: func in the key's slot, then the object (func itself when the object index named the key's slot), then the arguments, with everything below the key unchanged |
| StackEffects.CallPropSpec | src-input/duk_api_call.c:142-162 | duk_call_prop succeeds only with a sane nargs and the key and arguments in the frame, and then leaves one value in place of the key and the arguments; with sane counts it keeps every slot below the key whatever the outcome; bottom and end never move |
| StackEffects.CallPropRejects | src-input/duk_api_call.c:142-162 | the errors of duk_call_prop before the engine, in order: invalid-index for the object index, Invalid-Args for a negative nargs, push-beyond on a full stack, invalid-index when the key is missing, then a raising lookup, which leaves the copied key on top |
| StackEffects.PropCallDispatch | src-input/duk_api_call.c:100-106 | on the rewritten stack the engine sees `[func this a1..aN]`; its result replaces the key's slot onward, and a raise leaves the rewritten stack |
| StackEffects.CallPropEngine | src-input/duk_api_call.c:142-162 | once the lookup has produced func, duk_call_prop calls the engine on `[func obj a1..aN]` (obj being func when the object index named the key's slot); its one result replaces the key and the arguments, and a raise leaves the rewritten stack |
| StackEffects.ReplaceFromTop | src-input/duk_api_call.c:100 | writing the pushed function over the key and popping it leaves the old stack with func in the key's slot |
| StackEffects.InsertFromTop | src-input/duk_api_call.c:105 | moving the pushed value down to a slot is inserting it there |
| StackEffects.PcallRawSpec | src-input/duk_api_call.c:164-184 | keeps every slot below the function and leaves one value in place of the function and its arguments when the call returns |
| StackEffects.PcallMethodRawSpec | src-input/duk_api_call.c:202-221 | keeps every slot below the function and leaves one value in place of the function, 'this' and the arguments when the call returns |
| StackEffects.PcallPropRawSpec | src-input/duk_api_call.c:243-260 | keeps every slot below the key and leaves one value in place of the key and the arguments when the call returns |
| StackEffects.RunCallback | src-input/duk_api_call.c:301-305 | a safe-call callback never touches the slots below its consumed values, and it reports no more results than it left above them |
| StackEffects.RunInternal | src-input/duk_api_call.c:164-333 | the file's own callbacks keep the slots below what they consume and report at most the values they left |
| StackEffects.InternalStep | src-input/duk_api_call.c:164-333 | each internal callback (including duk__pnew_helper) consumes exactly its declared count and, on return, leaves exactly one value in its place |
| StackEffects.RunHostFunction | src-input/duk_api_call.c:301-305 | a host safe-call function keeps the slots below its arguments, stays below end, and reports no more results than it left |
| StackEffects.Fit | src-input/duk_api_call.c:305 | the callback's results are fitted to exactly nrets slots |
| StackEffects.Undefineds | src-input/duk_api_call.c:305 | the padding has the requested length and every slot holds undefined |
| StackEffects.FitSlots | src-input/duk_api_call.c:305 | fitted slot i holds the callback's i-th result where there is one, and undefined beyond |
| StackEffects.SafeCallContract | src-input/duk_api_call.c:279-308 | duk_safe_call raises Invalid-Args, with the stack untouched, if and only if `nargs < 0`, `nrets < 0`, `top < bottom + nargs` or `end + nargs < top + nrets`. Otherwise it returns a status, keeps every slot below the consumed values, and leaves exactly nrets values in their place, the caught error first on ExecError |
| StackEffects.SafeCallSpec | src-input/duk_api_call.c:279-308 | duk_safe_call either raises Invalid-Args with the stack untouched, or returns a status with nargs values replaced by exactly nrets; bottom and end never move |
| StackEffects.Settle | src-input/duk_api_call.c:301-307 | the unwinding always returns a status and leaves exactly nrets values above base |
| StackEffects.SafeCallResults | src-input/duk_api_call.c:301-307 | when the callback returns, the status is ExecSuccess and slot base + i holds its i-th result, or undefined past its results; when it raises, the status is ExecError, the error is at base and undefined fills the other slots |
| StackEffects.SettleShape | src-input/duk_api_call.c:301-307 | the unwinding keeps the values below base, leaves exactly nrets slots, returns ExecSuccess exactly when the callback returned, and puts the error first on failure |
| StackEffects.SettleSingle | src-input/duk_api_call.c:301-307 | with one result slot, the callback's one result stays in place; on failure, the error alone replaces the consumed values |
| StackEffects.SafeCallOfStep | src-input/duk_api_call.c:199 | a safe call with one result, around a callback that behaves as a one-result step, leaves that step's stack on return and the error alone at base on failure |
| StackEffects.PcallAgreesWithCall | src-input/duk_api_call.c:186-200 | duk_pcall consumes nargs + 1 and produces 1. With bad counts both it and duk_call raise Invalid-Args (nargs < 0 is rejected before the boundary). When duk_call returns, the stacks agree and the status is ExecSuccess; when duk_call would raise, the status is ExecError with the error alone at the function's slot |
| StackEffects.PcallSpec | src-input/duk_api_call.c:186-200 | duk_pcall either raises Invalid-Args with the stack untouched or returns a status; bottom and end never move |
| StackEffects.PcallCounts | src-input/duk_api_call.c:186-200 | duk_pcall raises exactly when nargs is negative or the frame holds fewer than nargs + 1 values; otherwise it keeps every slot below the function and leaves one value in place of the function and its arguments, whatever the outcome |
| StackEffects.PcallMethodAgreesWithCallMethod | src-input/duk_api_call.c:223-241 | duk_pcall_method, that is duk_pcall_method_flags with flags 0, consumes nargs + 2 and produces 1, and agrees with duk_call_method in the same terms |
| StackEffects.PcallMethodFlagsSpec | src-input/duk_api_call.c:223-237 | duk_pcall_method_flags either raises Invalid-Args with the stack untouched or returns a status; bottom and end never move |
| StackEffects.PcallMethodFlagsCounts | src-input/duk_api_call.c:223-237 | for any call flags, duk_pcall_method_flags raises exactly when nargs is negative or the frame holds fewer than nargs + 2 values; otherwise it keeps every slot below the function and leaves one value in place of the function, 'this' and the arguments |
| StackEffects.PcallPropAgreesWithCallProp | src-input/duk_api_call.c:262-277 | duk_pcall_prop consumes nargs + 1 and produces 1. With sane counts, every error duk_call_prop would raise, a bad object index included, becomes ExecError with the error at the key's slot |
| StackEffects.PcallPropSpec | src-input/duk_api_call.c:262-277 | duk_pcall_prop either raises Invalid-Args with the stack untouched or returns a status; bottom and end never move |
| StackEffects.PcallPropCounts | src-input/duk_api_call.c:262-277 | duk_pcall_prop raises exactly when nargs is negative or the frame holds fewer than nargs + 1 values; otherwise it keeps every slot below the key and leaves one value in place of the key and the arguments, a bad object index included |
| StackEffects.PropRawIsCallProp | src-input/duk_api_call.c:142-162 | inside the boundary, duk__pcall_prop_raw does exactly what duk_call_prop does |
| StackEffects.MethodCallAfterPrep | src-input/duk_api_call.c:159-161 | after the rewrite, duk_call_method finds the function nargs + 2 below top, as duk_handle_call_unprotected_nargs does |
| StackEffects.PnewAgreesWithNew | src-input/duk_api_call.c:335-353 | duk_pnew consumes nargs + 1 and produces 1, and agrees with duk_new in the same terms, an allocation failure included |
| StackEffects.PnewSpec | src-input/duk_api_call.c:335-353 | duk_pnew either raises Invalid-Args with the stack untouched or returns a status; bottom and end never move |
| StackEffects.PnewCounts | src-input/duk_api_call.c:335-353 | duk_pnew raises exactly when nargs is negative or the frame holds fewer than nargs + 1 values; otherwise it keeps every slot below the constructor and leaves one value in place of it and its arguments |
| ApiCall.Thread.GetTop | src-input/duk_api_call.c:53 | the frame size: bottom plus it is top, and it never reaches past end |
| ApiCall.Thread.GetTval | src-input/duk_api_call.c:441 | a value is found exactly for a valid relative index |
| ApiCall.Thread.Push | src-input/duk_api_call.c:487 | a push appends the value, or raises push-beyond on a full stack |
| ApiCall.Thread.Dup | src-input/duk_api_call.c:93 | room is checked first, then the index; on success the copied value is appended |
| ApiCall.Thread.Replace | src-input/duk_api_call.c:100 | pops the top value into the indexed slot; invalid-index otherwise |
| ApiCall.Thread.Insert | src-input/duk_api_call.c:105 | moves the top value down to the index, shifting the rest up; invalid-index otherwise |
| ApiCall.Thread.InsertUndefined | src-input/duk_api_call.c:121 | inserts undefined at the index, or raises push-beyond on a full stack |
| ApiCall.Thread.PushObject | src-input/duk_api_call.c:319 | appends a fresh object, or raises push-beyond or the allocation error |
| ApiCall.Thread.GetProp | src-input/duk_api_call.c:94 | replaces the key on top by the property value, or raises invalid-index or the lookup's error |
| ApiCall.Thread.HandleCallUnprotected | src-input/duk_api_call.c:124 | the thread's stack changes exactly as Dispatch says |
| ApiCall.Thread.HandleCallUnprotectedNargs | src-input/duk_api_call.c:256 | dispatch at the function nargs + 2 below top |
| ApiCall.Thread.CallPropPrepStack | src-input/duk_api_call.c:83-108 | the in-place dup/get_prop/replace/dup/insert sequence leaves exactly the CallPropPrep stack and outcome |
| ApiCall.Thread.LookupAndMove | src-input/duk_api_call.c:94-106 | from the copied key onward, the in-place steps leave the CallPropPrep stack and outcome |
| ApiCall.Thread.PlaceLookedUp | src-input/duk_api_call.c:100-106 | with the looked-up function on top, the in-place steps leave the CallPropPrep stack of a successful lookup |
| ApiCall.Thread.MoveFuncAndThis | src-input/duk_api_call.c:100-106 | replace, dup and insert leave the func-this-arguments layout |
| ApiCall.Thread.ReplaceTop | src-input/duk_api_call.c:100 | the looked-up function replaces the key |
| ApiCall.Thread.DupObject | src-input/duk_api_call.c:104 | a copy of the object slot goes on top |
| ApiCall.Thread.InsertBelowArgs | src-input/duk_api_call.c:105 | the value on top moves to just below the arguments |
| ApiCall.Thread.Call | src-input/duk_api_call.c:110-125 | the in-place steps leave exactly the CallSpec stack and outcome |
| ApiCall.Thread.CallMethod | src-input/duk_api_call.c:127-140 | the in-place steps leave exactly the CallMethodSpec stack and outcome |
| ApiCall.Thread.CallProp | src-input/duk_api_call.c:142-162 | the in-place steps leave exactly the CallPropSpec stack and outcome: invalid-index, then Invalid-Args, then the rewrite and the method call |
| ApiCall.Thread.New | src-input/duk_api_call.c:310-323 | the in-place steps leave exactly the NewSpec stack and outcome |
| ApiCall.Thread.InsertInstance | src-input/duk_api_call.c:319-320 | the default instance lands just above the function, or the push raises |
| ApiCall.Thread.PcallRaw | src-input/duk_api_call.c:164-184 | the in-place steps leave exactly the PcallRawSpec stack and outcome |
| ApiCall.Thread.PcallMethodRaw | src-input/duk_api_call.c:202-221 | the in-place steps leave exactly the PcallMethodRawSpec stack and outcome |
| ApiCall.Thread.PcallPropRaw | src-input/duk_api_call.c:243-260 | the in-place steps leave exactly the PcallPropRawSpec stack and outcome |
| ApiCall.Thread.PrepAndDispatch | src-input/duk_api_call.c:254-256 | the rewrite, then dispatch at the function nargs + 2 below top |
| ApiCall.Thread.PnewHelper | src-input/duk_api_call.c:325-333 | the callback is duk_new with the carried nargs |
| ApiCall.Thread.InvokeCallback | src-input/duk_api_call.c:301-305 | running a callback in place leaves exactly RunCallback's stack and result |
| ApiCall.Thread.HandleSafeCall | src-input/duk_api_call.c:301-307 | an admitted call leaves exactly the SafeCallSpec stack and status |
| ApiCall.Thread.Unwind | src-input/duk_api_call.c:301-307 | the results or the caught error move down to base and are fitted to nrets slots |
| ApiCall.Thread.SafeCall | src-input/duk_api_call.c:279-308 | the in-place admission test and call leave exactly the SafeCallSpec stack and result |
| ApiCall.Thread.Pcall | src-input/duk_api_call.c:186-200 | leaves exactly the PcallSpec stack and result |
| ApiCall.Thread.PcallMethodFlags | src-input/duk_api_call.c:223-237 | leaves exactly the PcallMethodFlagsSpec stack and result |
| ApiCall.Thread.PcallMethod | src-input/duk_api_call.c:239-241 | is duk_pcall_method_flags with no call flags |
| ApiCall.Thread.PcallProp | src-input/duk_api_call.c:262-277 | leaves exactly the PcallPropSpec stack and result |
| ApiCall.Thread.Pnew | src-input/duk_api_call.c:335-353 | leaves exactly the PnewSpec stack and result |
| ApiCall.Thread.IsConstructorCall | src-input/duk_api_call.c:355-367 | false with no activation; otherwise true exactly when the activation carries the constructor flag |
| ApiCall.Thread.RequireConstructorCall | src-input/duk_api_call.c:372-376 | raises the construct-only TypeError exactly when the current call is not a constructor call, which includes the case with no activation |
| ApiCall.Thread.IsStrictCall | src-input/duk_api_call.c:378-401 | strict when nothing runs; otherwise the activation's strict flag, in both directions |
| ApiCall.Thread.GetCurrentMagic | src-input/duk_api_call.c:407-432 | 0 with no activation or for a script function; otherwise the running native function's or lightfunc's magic, always in the signed 16-bit range |
| ApiCall.Thread.GetMagic | src-input/duk_api_call.c:434-458 | invalid-index exactly for an invalid index; a value exactly for a native function or a lightfunc, and that value is its magic; unexpected-type for every other value |
| ApiCall.Thread.CurrentMagicIsItsMagic | src-input/duk_api_call.c:407-458 | for the running callable found on the stack, duk_get_magic gives what duk_get_current_magic gives; a running script function has no magic to give |
| ApiCall.Thread.SetMagic | src-input/duk_api_call.c:460-468 | succeeds exactly on a heap native function, and afterwards duk_get_magic gives the stored value truncated to int16; raises unexpected-type otherwise |
| ApiCall.Thread.ResolveNonboundFunction | src-input/duk_api_call.c:477-506 | a bound function on top is replaced, in the same slot, by its target, and every other value stays; it raises only when the top is bound and the stack is full (the push of the target) |

## Left out

- The execution engine (`duk_handle_call_unprotected`, `duk_handle_call_unprotected_nargs`) is reduced to its effect on the caller's stack: the call span becomes one result, or the engine raises. Activation push and pop and recursion limits are not part of this model, because duk_js_call.c is not part of this model.
- The engine's treatment of a constructor call is not modelled. The model does not set the activation flag that `duk_is_constructor_call` reads when `duk_new` enters the callee, and it does not replace a non-object result by the default instance: the engine is any function from the call span and flags to an outcome.
- `CallFlags` carries only the constructor bit. The other bits that `duk_pcall_method_flags` accepts cannot be represented, so they are not passed to the engine.
- `duk_handle_safe_call` is modelled as a boundary that runs the callback on the caller's own frame. The callback's rc topmost values, or the caught error, replace the consumed values and are fitted to nrets slots, padded with undefined. This is the documented behaviour of `duk_safe_call`. The engine's own frame handling is not part of this model.
- The stack primitives the file calls (`duk_dup`, `duk_replace`, `duk_insert`, `duk_insert_undefined`, `duk_push_object`, `duk_get_prop`, `duk_push_tval`, `duk_require_normalize_index`, `duk_require_tval`, `duk_require_hnatfunc`) are given their documented effects and errors; duk_api_stack.c is not part of this model. `duk_dup` checks for room before it checks the index.
- Property lookup and the allocation of the default instance are abstract collaborators in `Host`. They may return or raise; accessors, prototypes and coercions are not modelled.
- StackEffects.SafeCallContract: that the slots below the consumed values are kept holds for a host safe-call function because of how such a function is modelled (below). It is not proved about arbitrary host C code, which could write below its arguments.
- StackEffects.RunCallback: the same. Keeping the slots below the consumed values is proved for the file's own callbacks, and it holds for host functions by the modelling choice below.
- A host safe-call function is a function from its arguments to its results, or to a thrown value. It cannot read or change the slots below its arguments, and results that would not fit below end raise push-beyond.
- Reference counting, garbage collection and the disabled in-place refcount path (lines 489-493) have no counterpart in a value model.
- Debug printing (`DUK_DDD`) is left out. `DUK_ASSERT`s become preconditions, e.g. a value on top for `ResolveNonboundFunction`.
- The lightfunc flag layout (`DUK_LFUNC_FLAGS_GET_MAGIC`) is not modelled; a lightfunc carries its magic as a plain int16 field.
- Stack indices are unbounded integers. The sign-bit tests on a bitwise OR are modelled as two comparisons. `SignOfOr` proves them equivalent over 32 bits; overflow of `top - nargs - other` at the 32-bit limit is not modelled.
- ApiCall.Thread.SetMagic: an invalid index raises unexpected-type, the same error as any non-native value. The exact error of `duk_require_hnatfunc` for an invalid index belongs to duk_api_stack.c, which is not part of this model.
- Numbers are integers and strings are character sequences; no value conversion happens in this file.
