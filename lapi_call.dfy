/*
 * The bookkeeping of `lua_pcallk` (lapi.c) around a protected call. The call
 * itself (`luaD_pcall`, `luaD_call` of ldo.c) is outside this model: what
 * the called function did is given as a `CallOutcome`.
 */
module CallApi {
  import opened State
  import opened StackApi

  /*
   * How the called function ended: the values it returned, an error and its
   * error object, or a yield that suspends the coroutine (possible only where
   * the thread is yieldable; elsewhere `lua_yield` raises an error instead).
   */
  datatype CallOutcome = Returned(results: seq<Value>) | Raised(status: int, error: Value) | Yielded

  /* The statuses a protected call reports for an error. */
  predicate IsErrorStatus(s: int) {
    s == LUA_ERRRUN || s == LUA_ERRMEM || s == LUA_ERRGCMM || s == LUA_ERRERR
  }

  /*
   * The results a call leaves for a caller that wants `wanted` of them:
   * all of them for LUA_MULTRET, otherwise exactly `wanted`, cut short or
   * filled up with nil.
   */
  function Adjusted(vals: seq<Value>, wanted: int): (r: seq<Value>)
    requires wanted >= LUA_MULTRET
    ensures wanted == LUA_MULTRET ==> r == vals
    ensures wanted != LUA_MULTRET ==> |r| == wanted
    ensures wanted != LUA_MULTRET ==> forall i :: 0 <= i < |r| ==> r[i] == (if i < |vals| then vals[i] else Nil)
  {
    if wanted == LUA_MULTRET then vals
    else if |vals| >= wanted then vals[..wanted]
    else vals + Nils(wanted - |vals|)
  }

  /* What replaces the function and its arguments on the stack after a call that came back. */
  function Placed(outcome: CallOutcome, nresults: int): seq<Value>
    requires nresults >= LUA_MULTRET
  {
    match outcome
    case Returned(vs) => Adjusted(vs, nresults)
    case Raised(_, e) => [e]
    case Yielded => []
  }

  /* `checkresults`: the results wanted fit below the frame's top, once the arguments are gone. */
  predicate CheckResults(ciTop: int, top: int, nargs: int, nresults: int) {
    nresults == LUA_MULTRET || ciTop - top >= nresults - nargs
  }

  /* Store `vs` into `a` from slot `at` on, as `luaD_poscall` (ldo.c) moves the results. */
  method Place(a: array<Value>, at: int, vs: seq<Value>)
    requires 0 <= at && at + |vs| <= a.Length
    modifies a
    ensures a[..] == old(a[..at]) + vs + old(a[at + |vs|..])
  {
    forall i | at <= i < at + |vs| {
      a[i] := vs[i - at];
    }
    assert a[..] == old(a[..at]) + vs + old(a[at + |vs|..]) by {
      var q := old(a[..at]) + vs + old(a[at + |vs|..]);
      assert forall k :: 0 <= k < a.Length ==> a[k] == q[k];
    }
  }

  /*
   * The status of a frame that runs a yieldable protected call: `allowhook`
   * saved in CIST_OAH and CIST_YPCALL set, every other bit kept.
   */
  function MarkYpcall(cs: bv16, allowhook: bool): (r: bv16)
    ensures GetOah(r) == (if allowhook then 1 else 0)
    ensures r & CIST_YPCALL == CIST_YPCALL
    ensures r & !(CIST_OAH | CIST_YPCALL) == cs & !(CIST_OAH | CIST_YPCALL)
  {
    SetOah(cs, if allowhook then 1 else 0) | CIST_YPCALL
  }

  /* The status once that call is over: CIST_YPCALL cleared, every other bit kept. */
  function UnmarkYpcall(cs: bv16): (r: bv16)
    ensures r & CIST_YPCALL == 0
    ensures r & !CIST_YPCALL == cs & !CIST_YPCALL
    ensures GetOah(r) == GetOah(cs)
  {
    var r := cs & !CIST_YPCALL;
    assert GetOah(r) == GetOah(cs) by {
      assert r & CIST_OAH == cs & CIST_OAH;
    }
    r
  }

  /* The results replace the called function and its arguments, and the top follows them. */
  method Settle(L: LuaState, cfunc: int, rs: seq<Value>)
    requires L.Valid() && L.ci.func < cfunc && cfunc + |rs| <= L.stackLast
    modifies L`top, L.stack
    ensures L.Valid() && L.top == cfunc + |rs|
    ensures L.stack[..] == old(L.stack[..cfunc]) + rs + old(L.stack[cfunc + |rs|..])
  {
    Place(L.stack, cfunc, rs);
    L.top := cfunc + |rs|;
  }

  /* The error-recovery record a yieldable protected call leaves in its frame. */
  method SaveRecovery(L: LuaState, cfunc: int, ef: int, ctx: int, k: Option<nat>)
    requires L.Valid()
    modifies L`errfunc, L.ci`k, L.ci`ctx, L.ci`extra, L.ci`oldErrfunc, L.ci`callstatus
    ensures L.Valid()
    ensures L.ci.k == k && L.ci.ctx == ctx && L.ci.extra == cfunc && L.ci.oldErrfunc == old(L.errfunc)
    ensures L.errfunc == ef && L.ci.callstatus == MarkYpcall(old(L.ci.callstatus), L.allowhook)
  {
    var ci := L.ci;
    ci.k := k;
    ci.ctx := ctx;
    ci.extra := cfunc;
    ci.oldErrfunc := L.errfunc;
    L.errfunc := ef;
    ci.callstatus := MarkYpcall(ci.callstatus, L.allowhook);
  }

  /* `adjustresults`: with LUA_MULTRET the frame's top is raised to cover the results. */
  method AdjustResults(L: LuaState, nresults: int)
    requires L.Valid()
    modifies L.ci`top
    ensures L.Valid()
    ensures L.ci.top == if nresults == LUA_MULTRET && old(L.ci.top) < L.top then L.top else old(L.ci.top)
  {
    if nresults == LUA_MULTRET && L.ci.top < L.top {
      L.ci.top := L.top;
    }
  }

  /* A call that came back: its results replace the function and its arguments, then `adjustresults`. */
  method Finish(L: LuaState, cfunc: int, rs: seq<Value>, nresults: int)
    requires L.Valid() && L.ci.func < cfunc && cfunc + |rs| <= L.stackLast
    modifies L`top, L.stack, L.ci`top
    ensures L.Valid() && L.top == cfunc + |rs|
    ensures L.stack[..] == old(L.stack[..cfunc]) + rs + old(L.stack[cfunc + |rs|..])
    ensures L.ci.top == if nresults == LUA_MULTRET && old(L.ci.top) < L.top then L.top else old(L.ci.top)
  {
    Settle(L, cfunc, rs);
    AdjustResults(L, nresults);
  }

  /*
   * The yieldable path of `lua_pcallk`: record the recovery information,
   * make the call, and on return clear CIST_YPCALL and restore the handler.
   * An error or a yield does not come back here; the frame then keeps the
   * record, which `lua_resume` uses to recover or to resume at `k`.
   */
  method YieldableCall(L: LuaState, cfunc: int, ef: int, ctx: int, k: Option<nat>, outcome: CallOutcome,
                       rs: seq<Value>, nresults: int) returns (status: int, returned: bool)
    requires L.Valid() && L.ci.func < cfunc && cfunc + |rs| <= L.stackLast
    modifies L`top, L`errfunc, L.stack, L.ci`k, L.ci`ctx, L.ci`extra, L.ci`oldErrfunc, L.ci`callstatus, L.ci`top
    ensures L.Valid()
    ensures L.ci.k == k && L.ci.ctx == ctx && L.ci.extra == cfunc && L.ci.oldErrfunc == old(L.errfunc)
    ensures returned <==> outcome.Returned?
    ensures !outcome.Returned? ==>
      && status == (if outcome.Raised? then outcome.status else LUA_YIELD) && L.errfunc == ef
      && L.ci.callstatus == MarkYpcall(old(L.ci.callstatus), L.allowhook)
      && L.top == old(L.top) && L.stack[..] == old(L.stack[..]) && L.ci.top == old(L.ci.top)
    ensures outcome.Returned? ==>
      && status == LUA_OK && L.errfunc == old(L.errfunc)
      && L.ci.callstatus == UnmarkYpcall(MarkYpcall(old(L.ci.callstatus), L.allowhook))
      && L.top == cfunc + |rs| && L.stack[..] == old(L.stack[..cfunc]) + rs + old(L.stack[cfunc + |rs|..])
      && L.ci.top == if nresults == LUA_MULTRET && old(L.ci.top) < L.top then L.top else old(L.ci.top)
  {
    SaveRecovery(L, cfunc, ef, ctx, k);
    if outcome.Raised? {
      // the error unwinds to the recovery point of `lua_resume`
      return outcome.status, false;
    } else if outcome.Yielded? {
      // the yield returns to `lua_resume`, which later re-enters at `k`
      return LUA_YIELD, false;
    }
    L.ci.callstatus := UnmarkYpcall(L.ci.callstatus);
    L.errfunc := L.ci.oldErrfunc;
    Finish(L, cfunc, rs, nresults);
    status := LUA_OK;
    returned := true;
  }

  /*
   * `lua_pcallk`: call the function below the `nargs` arguments on top, in
   * protected mode with the error handler at stack index `errfunc` (0 for
   * none). A "conventional" call (no continuation, or a non-yieldable
   * thread) always comes back: with the results, or with the error object
   * in place of the function. With a continuation on a yieldable thread the
   * frame records what error recovery needs (continuation, context, function
   * slot, previous error handler, `allowhook`, CIST_YPCALL) before the call;
   * if the call then raises an error or yields, control does not come back
   * (`returned == false`) and that record is what error recovery or the
   * later resumption at `k` finds.
   * Afterwards LUA_MULTRET raises the frame's top to cover the results.
   */
  method PCallK(L: LuaState, nargs: int, nresults: int, errfunc: int, ctx: int, k: Option<nat>,
                outcome: CallOutcome) returns (status: int, returned: bool)
    requires L.Valid()
    requires k.None? || !IsLua(L.ci.callstatus)
    requires 0 <= nargs && nargs + 1 < L.top - L.ci.func
    requires L.status == LUA_OK
    requires nresults >= LUA_MULTRET && CheckResults(L.ci.top, L.top, nargs, nresults)
    requires errfunc == 0 || (Acceptable(L, errfunc) && !IsPseudo(errfunc) && Index2Addr(L, errfunc).Slot?)
    requires outcome.Raised? ==> IsErrorStatus(outcome.status)
    requires outcome.Yielded? ==> k.Some? && L.nny == 0
    requires L.top - (nargs + 1) + |Placed(outcome, nresults)| <= L.stackLast
    modifies L`top, L`errfunc, L.stack, L.ci`k, L.ci`ctx, L.ci`extra, L.ci`oldErrfunc, L.ci`callstatus, L.ci`top
    ensures L.Valid()
    ensures
      var cfunc := old(L.top) - (nargs + 1);
      var conventional := k.None? || old(L.nny) > 0;
      var rs := Placed(outcome, nresults);
      && (returned <==> conventional || outcome.Returned?)
      && (returned && outcome.Returned? ==> status == LUA_OK)
      && (returned && outcome.Raised? ==> status == outcome.status)
      && (returned ==> L.errfunc == old(L.errfunc))
      && (returned ==> L.top == cfunc + |rs|
                       && L.stack[..] == old(L.stack[..cfunc]) + rs + old(L.stack[cfunc + |rs|..]))
      && (returned ==> L.ci.top == if nresults == LUA_MULTRET && old(L.ci.top) < L.top then L.top else old(L.ci.top))
      && (returned ==> status == LUA_OK || IsErrorStatus(status))
      && (!returned ==> L.top == old(L.top) && L.stack[..] == old(L.stack[..]) && L.ci.top == old(L.ci.top))
    ensures
      var conventional := k.None? || old(L.nny) > 0;
      conventional ==>
        && L.ci.k == old(L.ci.k) && L.ci.ctx == old(L.ci.ctx) && L.ci.extra == old(L.ci.extra)
        && L.ci.oldErrfunc == old(L.ci.oldErrfunc) && L.ci.callstatus == old(L.ci.callstatus)
    ensures
      var cfunc := old(L.top) - (nargs + 1);
      var ef := if errfunc == 0 then 0 else old(Index2Addr(L, errfunc)).i;
      var conventional := k.None? || old(L.nny) > 0;
      var marked := MarkYpcall(old(L.ci.callstatus), L.allowhook);
      !conventional ==>
        && L.ci.k == k && L.ci.ctx == ctx && L.ci.extra == cfunc && L.ci.oldErrfunc == old(L.errfunc)
        && (outcome.Returned? ==> L.ci.callstatus == UnmarkYpcall(marked))
        && (!outcome.Returned? ==> L.ci.callstatus == marked && L.errfunc == ef)
  {
    var ef := 0;
    if errfunc != 0 {
      ef := Index2Addr(L, errfunc).i;
    }
    var cfunc := L.top - (nargs + 1);
    var rs := Placed(outcome, nresults);
    if k.None? || L.nny > 0 {
      // luaD_pcall: the handler is in force only during the call
      Finish(L, cfunc, rs, nresults);
      status := if outcome.Returned? then LUA_OK else outcome.status;
      returned := true;
    } else {
      status, returned := YieldableCall(L, cfunc, ef, ctx, k, outcome, rs, nresults);
    }
  }
}
