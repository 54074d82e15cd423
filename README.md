# A verified model of the Lua 5.3 host API stack

This project models the host-facing C API of a Lua 5.3 engine (lapi.c) and the
state records it works on (lstate.h), and proves what that API promises
about the value stack, closures and their upvalues, raw table access,
metatables, protected calls and collector control.

The model follows the source's own structure:

- `State` (lstate.dfy) holds the data model: values (`Value`), the
  heap objects the API updates in place (`Table`, `Userdata`, `CClosure`,
  `UpVal`, `LClosure`), the call record `CallInfo`, the shared
  `GlobalState` and the per-thread `LuaState`. It also holds the CIST_* call
  status bits, `isLua`, `setoah`/`getoah`, `gettotalbytes` and
  `luaE_setdebt`.
- `StackApi` (lapi_stack.dfy) covers index resolution (`index2addr`),
  `lua_absindex`, `lua_gettop`, `lua_settop`, `lua_rotate` with its `reverse`
  helper, `lua_copy`, `lua_pushvalue`, `lua_checkstack`, `lua_xmove`, `lua_type`
  and the push functions. The stack is an `array` the methods change in place.
  Pointers into it are slot numbers.
- `Segments` (segments.dfy) holds the sequence functions `Reversed` and
  `Rotated` that specify `reverse` and `lua_rotate`, and the lemmas behind
  "rotation is three reversals".
- `ClosureApi` (lapi_closure.dfy) covers `lua_pushcclosure`, `aux_upvalue`,
  `lua_getupvalue`, `lua_setupvalue`, `getupvalref`/`lua_upvalueid` and
  `lua_upvaluejoin`.
- `TableApi` (lapi_table.dfy) covers `lua_rawget`, `lua_rawgeti`,
  `lua_rawgetp`, `lua_rawset`, `lua_rawseti`, `lua_rawsetp`,
  `lua_getmetatable`, `lua_setmetatable` and `lua_concat`.
- `CallApi` (lapi_call.dfy) covers `checkresults` and the bookkeeping of
  `lua_pcallk`: the conventional path and the yieldable path with a
  continuation.
- `GcApi` (lapi_gc.dfy) covers `lua_gc` with all of its options.
- `GcLists` (gclists.dfy) holds the collector's four object lists and the
  invariant that every collectable object is on exactly one of them. It also
  holds the moves between the lists, and the proof that each move keeps the
  invariant. This module stands alone: `GlobalState` does not hold the
  lists, and no API operation above relies on the invariant.

Calls into code that is not part of this model are parameters of the
operations that make them:

- the outcome of the protected `luaD_growstack` (the new size, or failure);
- what the function called by `lua_pcallk` did (`CallOutcome`);
- GCSTEPSIZE, and the byte count, debt and collector state that
  `luaC_fullgc` or `luaC_step` leave (`Collected`);
- the result of `luaV_concat`.

The API's `api_check` conditions are preconditions. Errors the source raises
or reports are modelled as results: the nil key of `lua_rawset`, the
missing upvalue of `lua_getupvalue`, and an error raised by the called
function.

## Model

| member | source | states |
|---|---|---|
| State.TypeTag | lapi.c:259-262 | the basic type of a value lies in 0..8; it is LUA_TNIL exactly for nil, LUA_TTABLE exactly for tables and LUA_TUSERDATA exactly for full userdata |
| State.GetOah | lstate.h:138 | the saved 'allowhook' bit is 0 or 1 |
| State.SetOah | lstate.h:135-137 | after `setoah` bit CIST_OAH holds the 0/1 value and every other bit is as it was |
| State.GetOahSetOah | lstate.h:135-138 | `getoah` reads back what `setoah` stored |
| State.CistFlagsAreDistinctBits | lstate.h:122-133 | every CIST_* flag is a single bit, no two flags share a bit, and `isLua` holds for CIST_LUA alone among them |
| State.ToLuMem | lstate.h:256 | the conversion to `lu_mem` lands in [0, 2^64) and is the identity on values already in range |
| State.GlobalState.GetTotalBytes | lstate.h:254-256 | under the state invariant the actual byte count is `totalbytes + GCdebt` and is positive |
| State.GlobalState.SetDebt | lstate.h:258 | `luaE_setdebt` keeps the actual byte count and the invariant, sets the debt to the one asked for unless that would push `totalbytes` past MAX_LMEM (then the debt is raised just enough), and leaves `totalbytes <= MAX_LMEM` |
| State.GlobalState.constructor | lstate.h:146-181 | a fresh global state holds its initial byte count with no debt, a nil registry (no registry table yet), no panic function, no main thread, and no metatable for any basic type |
| State.LuaState.constructor | lstate.h:187-211 | a fresh thread has a BASIC_STACK_SIZE stack, an empty base frame whose top is LUA_MINSTACK slots above the function slot, no error function, hooks allowed, one non-yieldable call and status LUA_OK |
| Segments.Reversed | lapi.c:197-205 | the reversal has the same length and holds the value at the mirrored position at each index |
| Segments.Rotated | lapi.c:207-225 | rotation keeps the segment's length |
| Segments.ReversedConcat | lapi.c:207-211 | reversing a concatenation reverses each part and swaps them |
| Segments.ReversedTwice | lapi.c:207-211 | reversing twice restores the segment |
| Segments.ThreeReversals | lapi.c:207-225 | reversing the prefix and the suffix, then the whole, gives the suffix followed by the prefix: "BA == (A^r . B^r)^r" |
| Segments.RotatedMoves | lapi.c:213-225 | rotation by `n` moves every value `n` places toward the end of the segment, wrapping around |
| Segments.RotatedZero | lapi.c:213-225 | rotating by 0 changes nothing |
| Segments.RotatedInverse | lapi.c:213-225 | rotating by `n` and then by `-n` restores the segment |
| Segments.ReverseRange | lapi.c:197-205 | the in-place reversal of a range (one exchange of its two ends per step) keeps the length |
| Segments.ReverseRangeAt | lapi.c:197-205 | after the range is reversed each slot inside it holds the value mirrored across it, and every slot outside keeps its value |
| Segments.ReverseRangeSlices | lapi.c:197-205 | reversing a range leaves the parts outside it and replaces the slice by its reversal |
| Segments.RotateByReversals | lapi.c:213-225 | the three `reverse` calls of `lua_rotate` leave the slice rotated and the rest in place |
| Segments.ThreeReversalsAt | lapi.c:220-223 | what the three reversals leave at one slot |
| Segments.SwappedAt | lapi.c:220-223 | what the prefix and suffix swap leaves at one slot |
| Segments.RotateSteps | lapi.c:219-223 | with `m` computed as in `lua_rotate`, the three reversals produce `Rotated(segment, n)` |
| Segments.RotatedAtSplit | lapi.c:219 | the rotation by `n` is the swap of the two parts split at `m` |
| Segments.SplitSegment | lapi.c:219-221 | the two parts of the segment split after `m` are the stack slices `[p, m]` and `[m + 1, t]` |
| StackApi.Index2Addr | lapi.c:59-83 | a positive index gives the slot `func + idx` when it is below the top and the invalid sentinel otherwise; a negative stack index gives `top + idx`; LUA_REGISTRYINDEX gives the registry; an upvalue index gives the running C closure's upvalue `LUA_REGISTRYINDEX - idx - 1` exactly when the closure has that many upvalues, otherwise the sentinel; a slot found lies within the frame |
| StackApi.Type | lapi.c:259-262 | `lua_type` is LUA_TNONE exactly for the invalid sentinel and otherwise the basic type of the value at the index |
| StackApi.AbsIndexResolvesAlike | lapi.c:162-166 | the index `lua_absindex` returns is positive or a pseudo-index, is acceptable, and resolves to the same address as the index it came from |
| StackApi.GetTop | lapi.c:169-171 | `lua_gettop` is the number of values in the current frame |
| StackApi.Put | lapi.c:228-234 | storing at a resolved address changes exactly that stack slot, the registry or the upvalue |
| StackApi.Copy | lapi.c:228-242 | `lua_copy` stores the value at `fromidx` at the address `toidx` names; the destination index still resolves to it; a stack slot, the registry or one upvalue of the running C closure is written, the closure keeps its number of upvalues and its other upvalues, and all other storage (stack slots, registry, upvalues) is unchanged |
| StackApi.Push | lapi.c:245-250 | `setobj` on the top followed by `api_incr_top`: the frame gains the value at its end, and nothing else on the stack changes |
| StackApi.PushValue | lapi.c:245-250 | the frame gains a copy of the value at `idx`; the top rises by one and every other slot of the stack, the function slot and the caller frames included, is kept |
| StackApi.PushNil | lapi.c:460-465 | the frame gains nil; the top rises by one and every other slot of the stack, the function slot and the caller frames included, is kept |
| StackApi.PushNumber | lapi.c:468-473 | the frame gains the float; the top rises by one and every other slot of the stack, the function slot and the caller frames included, is kept |
| StackApi.PushInteger | lapi.c:476-481 | the frame gains the integer; the top rises by one and every other slot of the stack, the function slot and the caller frames included, is kept |
| StackApi.PushLString | lapi.c:491-500 | the frame gains the string, and the result is its internal copy with the same contents; the top rises by one and every other slot of the stack, the function slot and the caller frames included, is kept |
| StackApi.PushString | lapi.c:503-516 | a NULL string pushes nil and returns NULL; any other string is pushed and returned; the top rises by one and every other slot of the stack, the function slot and the caller frames included, is kept |
| StackApi.PushBoolean | lapi.c:570-575 | the frame gains `true` exactly when `b` is nonzero; the top rises by one and every other slot of the stack, the function slot and the caller frames included, is kept |
| StackApi.PushLightUserdata | lapi.c:578-583 | the frame gains the light userdata; the top rises by one and every other slot of the stack, the function slot and the caller frames included, is kept |
| StackApi.PushThread | lapi.c:586-592 | the frame gains the thread itself; the result says whether it is the main thread; the top rises by one and every other slot of the stack, the function slot and the caller frames included, is kept |
| StackApi.SetTop | lapi.c:174-188 | the frame gets `idx` values for `idx >= 0` and loses `-(idx+1)` values otherwise; values below the new top are kept, and slots uncovered by raising the top become nil |
| StackApi.FillNil | lapi.c:178-180 | the loop makes exactly the slots from the old top up to the new one nil |
| StackApi.Reverse | lapi.c:197-205 | `reverse` leaves the array as `ReverseRange` of what it was |
| StackApi.Rotate | lapi.c:213-225 | `lua_rotate` leaves the values from `idx` to the top as `Rotated(them, n)` and every other slot as it was |
| StackApi.RotateSegment | lapi.c:219-223 | the three `reverse` calls rotate the segment and keep the rest of the array |
| StackApi.GrowStack | lapi.c:91-94 | the stack becomes a fresh array of the requested size whose first slots are the old stack and whose new slots are nil; `stack_last` keeps EXTRA_STACK spare slots |
| StackApi.CheckStack | lapi.c:97-115 | with more than `n` free slots the answer is yes and the stack stays; otherwise it is no when the stack would pass LUAI_MAXSTACK, and else it is whether growing succeeded; on yes the frame's top covers `n` more slots (and is raised only if needed), on no nothing changes; the frame's values are always kept |
| StackApi.XMove | lapi.c:118-131 | between distinct threads the `n` top values of `from` are popped and pushed in order onto `to`, and `to` keeps its other slots; with `from == to` nothing changes |
| StackApi.CopyInto | lapi.c:125-129 | the copy loop writes the `n` source values into the destination from `into` on and changes nothing else |
| ClosureApi.PushCClosure | lapi.c:544-567 | with no upvalues a light C function is pushed; otherwise the top `n` values are popped into a fresh C closure of `fn` whose upvalue `i` is the popped value `i`, and the closure is pushed; no other slot changes |
| ClosureApi.AuxUpvalue | lapi.c:1230-1251 | an upvalue is found exactly for a C closure with `1 <= n <= nupvalues` or a Lua closure with `1 <= n <= sizeupvalues`; a C closure's upvalue has the empty name and is its slot `n-1`; a Lua closure's is its cell `n-1`, named as its prototype records or "(*no name)" when the name is missing |
| ClosureApi.GetUpvalue | lapi.c:1255-1266 | when the upvalue exists its value is pushed and its name returned; otherwise NULL is returned and the stack is unchanged |
| ClosureApi.SetUpvalue | lapi.c:1269-1287 | when the upvalue exists the top value is popped into it (the C closure slot, keeping the other upvalues, or the Lua closure's cell, whose reference count, open flag and `touched` flag are kept) and its name returned; otherwise NULL is returned and nothing is popped |
| ClosureApi.PseudoIndexIsAuxUpvalue | lapi.c:73-81 | while a C closure runs, the pseudo-index `lua_upvalueindex(n)` and `aux_upvalue` name the same storage and read the same value |
| ClosureApi.UpvalueId | lapi.c:1290-1317 | `lua_upvalueid` is the location `aux_upvalue` finds for that upvalue: the shared cell of a Lua closure (through `getupvalref`) or the slot of a C closure |
| ClosureApi.UpvalueJoin | lapi.c:1320-1330 | after the join, upvalue `n1` of `f1` uses the cell of upvalue `n2` of `f2` and its other upvalues are kept; for distinct cells the old one loses a reference, the new one gains one and is marked touched when open; when the cells already coincide nothing changes (see Findings) |
| ClosureApi.DropThenAddRestores | lapi.c:1325-1327 | dropping a reference with `luaC_upvdeccount` and adding it back with `refcount++` restores a live cell exactly when the cell is open or had another reference; otherwise the drop freed it |
| ClosureApi.JoinWithItselfFreesLiveCell | lapi.c:1325-1327 | as written, joining an upvalue with the closed, singly referenced cell it already uses frees that cell and then counts a reference to it again |
| ClosureApi.JoinCellsKeepsTargetLive | lapi.c:1320-1330 | with the guard, the cell the upvalue is made to use stays live and gains exactly the reference the join adds; only the abandoned cell can lose one, and no other cell changes |
| TableApi.RawGet | lapi.c:661-669 | the key on top is replaced by the table's raw value for it (nil when absent), and its type is returned |
| TableApi.RawGetI | lapi.c:672-681 | the raw value of the integer key is pushed and its type returned |
| TableApi.RawGetP | lapi.c:684-695 | the raw value of the light-userdata key is pushed and its type returned |
| TableApi.RawSet | lapi.c:817-830 | for a non-nil key the table maps the key to the value, its metamethod cache is cleared and both are popped; a nil key is refused with the table and the stack unchanged; the metatable is never touched |
| TableApi.RawSetI | lapi.c:833-843 | the table maps the integer key to the popped value, and every other key is kept |
| TableApi.RawSetP | lapi.c:846-859 | the table maps the light-userdata key to the popped value, and every other key is kept |
| TableApi.GetMetatable | lapi.c:711-735 | the result is 1 exactly when the value has a metatable (its own for tables and full userdata, otherwise its type's), and that table is pushed; with none the result is 0 and the stack is unchanged |
| TableApi.SetMetatable | lapi.c:862-899 | the popped table (or none for nil) becomes the metatable `lua_getmetatable` sees for the value; tables and full userdata get their own, every other type shares the one in `G(L)->mt`, and that array changes only for the value's type |
| TableApi.Concat | lapi.c:1173-1186 | with no values the empty string is pushed; with one nothing changes; with `n >= 2` the `n` values are replaced by the concatenation, the values below them are kept, and the slots above the new top are left unspecified because `luaV_concat` works in them |
| CallApi.Adjusted | lapi.c:982-985 | LUA_MULTRET keeps all results; a fixed count yields exactly that many, cut short or filled with nil |
| CallApi.Place | lapi.c:982-997 | the results are stored from the function's slot on, and the rest of the stack is kept |
| CallApi.MarkYpcall | lapi.c:995-996 | the frame's status saves `allowhook` in CIST_OAH and sets CIST_YPCALL, keeping every other bit |
| CallApi.UnmarkYpcall | lapi.c:998 | CIST_YPCALL is cleared, every other bit and the saved 'allowhook' are kept |
| CallApi.Settle | lapi.c:982-997 | the results replace the function and its arguments, and the top follows them |
| CallApi.SaveRecovery | lapi.c:988-996 | the frame records the continuation, its context, the function's slot and the previous error handler; the handler comes into force and the status is marked |
| CallApi.AdjustResults | lapi.c:1002 | `adjustresults`: with LUA_MULTRET the frame's top is raised to cover the results, otherwise it is kept |
| CallApi.Finish | lapi.c:983-1002 | the results replace the function and its arguments, then `adjustresults` |
| CallApi.YieldableCall | lapi.c:987-1001 | the recovery record is saved before the call; an error does not come back and leaves the record and the marked status in place; a return restores the error handler, clears CIST_YPCALL, and places the results |
| CallApi.PCallK | lapi.c:964-1005 | control comes back exactly on the conventional path (no continuation or a non-yieldable thread) or when the call returned, and not on the yieldable path when the call raises an error or yields; then the results (or the error object) replace the function and its arguments, the status is LUA_OK or the error's, and the error handler is the one before; the yieldable path records continuation, context, function slot, old handler and status bits; the conventional path leaves the frame's record untouched |
| GcApi.CastInt | lapi.c:1092 | `cast_int` lands in the 32-bit range, agrees with its argument modulo 2^32, and is the identity on values that fit |
| GcApi.KRemainder | lapi.c:1096 | LUA_GCCOUNTB lies in [0, 1024) |
| GcApi.CountsRecombine | lapi.c:1090-1097 | while the Kbyte count fits an `int`, LUA_GCCOUNT * 1024 + LUA_GCCOUNTB is the byte count |
| GcApi.StepMulIdempotent | lapi.c:1122-1126 | setting the step multiplier twice gives what setting it once gave, and the clamp at 40 never lowers `data` |
| GcApi.Gc | lapi.c:1071-1136 | STOP/RESTART switch the collector (RESTART clears the debt); COLLECT leaves the collector fields as the full collection does; COUNT/COUNTB report the current byte count; STEP gives the debt to `luaE_setdebt`, then lets the collector run when `data` is 0 (a small step) or the new debt is positive (else the debt stays as set), and reports 1 exactly when the debt given was positive and the collector state afterwards is GCSpause, restoring whether it was running; SETPAUSE/SETSTEPMUL return the old value and SETSTEPMUL clamps at 40; ISRUNNING reports the flag; an unknown option gives -1; options other than COLLECT and STEP keep the byte count and the collector state |
| GcLists.Unlink | lstate.h:19-28 | unlinking removes one occurrence of the object from the list when the list has it, and otherwise changes nothing |
| GcLists.OnlyOneList | lstate.h:19-28 | under the invariant an object is on a list exactly when that list is the one `ListOf` names |
| GcLists.NewObject | lstate.h:19-28 | a new object is added to the lists |
| GcLists.CheckFinalizerKeeps | lstate.h:19-28 | marking an object for finalization keeps the objects and the one-list invariant and puts the object on `finobj`; otherwise nothing changes |
| GcLists.SeparateToBeFnzKeeps | lstate.h:19-28 | the move to `tobefnz` keeps the objects and the invariant; the object is then on `tobefnz` and on neither `allgc` nor `finobj` |
| GcLists.Udata2FinalizeKeeps | lstate.h:19-28 | the move back to `allgc` keeps the objects and the invariant; the object is then on `allgc` and off `tobefnz` |
| GcLists.FixKeeps | lstate.h:19-28 | fixing keeps the objects and the invariant; the object is then on `fixedgc` and off `allgc` |
| GcLists.NewObjectKeeps | lstate.h:19-28 | a new object keeps the invariant and is then on `allgc` |
| GcLists.FreeObjects | lstate.h:19-28 | freeing an object of `allgc` or `finobj` takes it out of the lists once; any other object leaves them as they were |
| GcLists.FreeKeeps | lstate.h:19-28 | freeing keeps the invariant and leaves the freed object on no list |
| GcLists.FreeFromAllgc | lstate.h:24 | freeing from `allgc` takes one copy out |
| GcLists.FreeFromFinobj | lstate.h:25 | freeing from `finobj` takes one copy out |
| GcLists.ObjectsSplit | lstate.h:160-169 | the objects of the lists are the objects of each list together |

## Left out

- The internals of the modules the API calls are not part of this model:
  luaD (ldo.c), luaV (lvm.c), luaH (ltable.c), luaS (lstring.c), luaC
  (lgc.c), luaO (lobject.c) and luaF (lfunc.c). Their results are
  parameters (growing the stack, the called function's outcome, the step
  size and the collector fields after a collection, the concatenation), or they
  appear as the list moves of `GcLists`. lapi.h, lgc.c and lstate.c are not
  part of this model: `api_incr_top`, `api_checknelems` and `adjustresults`
  are modelled from their use in lapi.c, `luaE_setdebt` as described in the
  SetDebt line below, and `luaC_upvdeccount` as stated in Findings.
- Floating-point numbers are opaque bits. Float key normalisation, NaN keys
  and the array part of tables are not modelled: a table is a map from
  values to values.
- Metamethods and write barriers (`luaC_barrier`, `luaC_upvalbarrier`) are
  not modelled.
- The collection step `luaC_checkGC` that `lua_pushlstring`,
  `lua_pushstring`, `lua_pushcclosure`, `lua_concat` and others run at
  their end is not modelled. Those operations leave the collector fields
  as they were, where the source may run a collection step that frees
  memory and changes the debt. Only `lua_gc` models the collector's effect.
- What a collection frees, and the collector's own state machine, are
  outside this model. LUA_GCCOLLECT and LUA_GCSTEP take the byte count,
  debt and collector state the collector leaves as the `Collected`
  parameter, which is required only to keep the byte count positive and
  within `l_mem`.
- The stack is not reallocated when it grows in the middle of a call.
  Open upvalues that alias stack slots are not modelled: a cell's value
  is a field.
- Error unwinding and resumption are not modelled. After an error or a
  yield on the yieldable path of `lua_pcallk`, control does not come back
  (`returned == false`). What `lua_resume` then does, recovering from the
  error or calling the continuation `k` when the coroutine is resumed, is
  outside this model.
- Locking (`lua_lock`), hooks, the allocator, `lua_newuserdata`,
  `lua_pushfstring`/`lua_pushvfstring`, `lua_load` and `lua_dump` are
  left out.
- PCallK: requires `nargs >= 0`, `nresults >= LUA_MULTRET`, and room for the
  results below `stack_last`. The source assumes these (the call machinery
  grows the stack) but does not check them. A `Yielded` outcome is admitted
  only on the yieldable path. On a non-yieldable thread a yield is raised as
  an error inside the callee, so it arrives here as `Raised`.
- RawGet: requires a key on the stack, which the source uses without
  checking.
- RawSet: a nil key is reported by its result, while the source raises an
  error. A NaN key, which the source also refuses, cannot occur here because
  floats are opaque.
- SetMetatable: does not call `luaC_checkfinalizer`. The list move it makes
  is modelled separately as `GcLists.CheckFinalizer`.
- Concat: the concatenation of two or more values is given as a parameter,
  so its contents and the string coercion of numbers are not checked. The
  slots above the new top, where `luaV_concat` works, are left unspecified.
- Gc: the collector's results are a parameter (see above). Signed overflow of
  `data * 1024 + GCdebt` (undefined in C) is not modelled: the arithmetic is
  unbounded.
- GlobalState.constructor, LuaState.constructor: the cited lines declare
  the fields only. The initial values come from `lua_newstate`,
  `preinit_thread` and `stack_init` in Lua 5.3's lstate.c, which is not part
  of this model. They are the BASIC_STACK_SIZE stack, `ci->top` LUA_MINSTACK
  slots above the function, `nny == 1`, `allowhook` and errfunc 0. The
  global state is the one before setup finishes. `lua_newstate` then makes
  the new thread `mainthread`, and `f_luaopen` creates the registry table
  and sets `gcrunning` to 1. Those steps are not modelled.
- SetDebt: its declaration (lstate.h:258) and its calls in lua_gc fix only
  that it sets the debt while keeping `gettotalbytes`. The clamp that
  keeps `totalbytes` at most MAX_LMEM is not visible in those lines. It is
  an assumption of this model, taken from the definition of `luaE_setdebt`
  in Lua 5.3's lstate.c, which is not part of this model.
- XMove: requires `n >= 0` between distinct threads. The source does not
  check this.
- UpvalueJoin: does not model freeing a cell whose last reference is dropped;
  that is modelled on `CellState` values by `DecCount`.

## Findings

| source | as written | input that shows it | evidently intended | confidence | as-written member | corrected member |
|---|---|---|---|---|---|---|
| lapi.c:1320-1330 | `luaC_upvdeccount(L, *up1); *up1 = *up2; (*up1)->refcount++;` runs even when `*up1 == *up2` | upvalue `n1` of `f1` and upvalue `n2` of `f2` already share a closed cell whose reference count is 1 (for example `lua_upvaluejoin(L, f, 1, f, 1)` on a closure with a closed first upvalue): the decrement frees the cell, and the closure then keeps using it and the increment writes into freed memory | return without change when both upvalues already use the same cell | not executed | ClosureApi.JoinCellsAsWritten, ClosureApi.JoinWithItselfFreesLiveCell | ClosureApi.JoinCells, ClosureApi.JoinCellsKeepsTargetLive, ClosureApi.UpvalueJoin |
