/*
 * Thread, call-frame and engine-wide state of the Lua 5.3 core (lstate.h),
 * together with the tagged values and heap objects those records hold.
 *
 * Pointers into the stack become integer slot offsets into `LuaState.stack`;
 * heap objects whose fields the API updates in place (tables, userdata,
 * closures, upvalue cells, threads) are classes.
 */
module State {

  datatype Option<T> = None | Some(value: T)

  /* Basic type tags as returned by `lua_type` (lua.h of Lua 5.3). */
  const LUA_TNONE: int := -1
  const LUA_TNIL: int := 0
  const LUA_TBOOLEAN: int := 1
  const LUA_TLIGHTUSERDATA: int := 2
  const LUA_TNUMBER: int := 3
  const LUA_TSTRING: int := 4
  const LUA_TTABLE: int := 5
  const LUA_TFUNCTION: int := 6
  const LUA_TUSERDATA: int := 7
  const LUA_TTHREAD: int := 8
  const LUA_NUMTAGS: int := 9

  /* Status codes of protected operations (lua.h of Lua 5.3). */
  const LUA_OK: int := 0
  const LUA_YIELD: int := 1
  const LUA_ERRRUN: int := 2
  const LUA_ERRSYNTAX: int := 3
  const LUA_ERRMEM: int := 4
  const LUA_ERRGCMM: int := 5
  const LUA_ERRERR: int := 6

  const LUA_MULTRET: int := -1
  const LUA_MINSTACK: int := 20

  /* Stack limits: LUAI_MAXSTACK of luaconf.h and the pseudo-index base of lua.h. */
  const LUAI_MAXSTACK: int := 1000000
  const LUA_REGISTRYINDEX: int := -LUAI_MAXSTACK - 1000
  /* Largest number of upvalues of a closure (lfunc.h). */
  const MAXUPVAL: int := 255

  /* Extra stack space kept above `stack_last` for metamethod calls. */
  const EXTRA_STACK: int := 5
  const BASIC_STACK_SIZE: int := 2 * LUA_MINSTACK

  /* Largest value of the signed memory counter type `l_mem` (64-bit build). */
  const MAX_LMEM: int := 0x7FFF_FFFF_FFFF_FFFF

  /*
   * A tagged value: exactly one variant is active. Scalars are carried inline;
   * the variants ending in `Ref` reference a heap object.
   */
  datatype Value =
    | Nil
    | Boolean(b: bool)
    | LightUserdata(p: nat)
    | Integer(i: int)
    | Float(bits: int)               // floating-point numerics are opaque here
    | Str(s: string)
    | TableRef(t: Table)
    | LightCFunction(f: nat)         // a bare C function pointer, no upvalues
    | CClosureRef(c: CClosure)
    | LClosureRef(l: LClosure)
    | UserdataRef(u: Userdata)
    | ThreadRef(th: LuaState)

  /* The basic type of a value, `ttnov` in the source. */
  function TypeTag(v: Value): (t: int)
    ensures LUA_TNIL <= t < LUA_NUMTAGS
    ensures t == LUA_TNIL <==> v.Nil?
    ensures t == LUA_TTABLE <==> v.TableRef?
    ensures t == LUA_TUSERDATA <==> v.UserdataRef?
  {
    match v
    case Nil => LUA_TNIL
    case Boolean(_) => LUA_TBOOLEAN
    case LightUserdata(_) => LUA_TLIGHTUSERDATA
    case Integer(_) => LUA_TNUMBER
    case Float(_) => LUA_TNUMBER
    case Str(_) => LUA_TSTRING
    case TableRef(_) => LUA_TTABLE
    case LightCFunction(_) => LUA_TFUNCTION
    case CClosureRef(_) => LUA_TFUNCTION
    case LClosureRef(_) => LUA_TFUNCTION
    case UserdataRef(_) => LUA_TUSERDATA
    case ThreadRef(_) => LUA_TTHREAD
  }

  /* A table, seen through its raw contents; the hash/array split is not modelled. */
  class Table {
    var hash: map<Value, Value>
    var metatable: Table?
    var flags: bv8     // cache of absent metamethods

    constructor ()
      ensures hash == map[] && metatable == null && flags == 0
    {
      hash := map[];
      metatable := null;
      flags := 0;
    }
  }

  class Userdata {
    var metatable: Table?

    constructor ()
      ensures metatable == null
    {
      metatable := null;
    }
  }

  /* A C closure: the function and its upvalues, stored by value in the closure. */
  class CClosure {
    const f: nat
    var upvalue: seq<Value>

    constructor (f: nat, n: nat)
      ensures this.f == f && |upvalue| == n
      ensures forall k :: 0 <= k < n ==> upvalue[k] == Nil
    {
      this.f := f;
      upvalue := seq(n, _ => Nil);
    }
  }

  /*
   * An upvalue cell shared by Lua closures. `refcount` counts the closures
   * that point at it; the value of an open cell is kept in `v` here.
   */
  class UpVal {
    var v: Value
    var refcount: int
    var open: bool
    var touched: bool

    constructor (v: Value, open: bool)
      ensures this.v == v && this.open == open && refcount == 0 && !touched
    {
      this.v := v;
      this.open := open;
      refcount := 0;
      touched := false;
    }
  }

  /* A Lua closure: one pointer per upvalue, and the prototype's upvalue names. */
  class LClosure {
    var upvals: seq<UpVal>
    const upvalueNames: seq<Option<string>>

    /* The closure has one cell per upvalue its prototype declares. */
    ghost predicate Valid()
      reads this
    {
      |upvals| == |upvalueNames|
    }

    constructor (cells: seq<UpVal>, names: seq<Option<string>>)
      requires |cells| == |names|
      ensures Valid() && upvals == cells && upvalueNames == names
    {
      upvals := cells;
      upvalueNames := names;
    }
  }

  /* Bits of `CallInfo.callstatus`. */
  const CIST_OAH: bv16 := 1 << 0        // saved copy of the thread's 'allowhook'
  const CIST_LUA: bv16 := 1 << 1        // the frame belongs to a Lua function
  const CIST_HOOKED: bv16 := 1 << 2     // the frame runs inside a debug hook
  const CIST_FRESH: bv16 := 1 << 3      // the frame started a new invocation of the interpreter loop
  const CIST_YPCALL: bv16 := 1 << 4     // the frame made a protected call that may yield
  const CIST_TAIL: bv16 := 1 << 5       // the frame was entered by a tail call
  const CIST_HOOKYIELD: bv16 := 1 << 6  // the most recent hook yielded
  const CIST_LEQ: bv16 := 1 << 7        // a '<=' comparison is being answered by '__lt'
  const CIST_FIN: bv16 := 1 << 8        // the frame runs a finalizer

  const CistFlags: seq<bv16> := [CIST_OAH, CIST_LUA, CIST_HOOKED, CIST_FRESH, CIST_YPCALL,
                                 CIST_TAIL, CIST_HOOKYIELD, CIST_LEQ, CIST_FIN]

  /* `isLua`: the frame runs a Lua function. */
  predicate IsLua(callstatus: bv16) {
    callstatus & CIST_LUA != 0
  }

  /* `getoah`: the saved 'allowhook' bit. */
  function GetOah(st: bv16): (r: bv16)
    ensures r <= 1
  {
    st & CIST_OAH
  }

  /* `setoah`: store a 0/1 value in bit CIST_OAH, keeping every other bit. */
  function SetOah(st: bv16, v: bv16): (r: bv16)
    requires v <= 1
    ensures r & CIST_OAH == v
    ensures r & !CIST_OAH == st & !CIST_OAH
  {
    (st & !CIST_OAH) | v
  }

  lemma GetOahSetOah(st: bv16, v: bv16)
    requires v <= 1
    ensures GetOah(SetOah(st, v)) == v
  {
  }

  /* Every status flag is a single bit, and no two flags share a bit. */
  lemma CistFlagsAreDistinctBits()
    ensures forall i :: 0 <= i < |CistFlags| ==> CistFlags[i] != 0 && CistFlags[i] & (CistFlags[i] - 1) == 0
    ensures forall i, j :: 0 <= i < j < |CistFlags| ==> CistFlags[i] & CistFlags[j] == 0
    ensures forall i :: 0 <= i < |CistFlags| ==> (IsLua(CistFlags[i]) <==> i == 1)
  {
  }

  /* The record of one active function call: its frame and what a protected call saved. */
  class CallInfo {
    var func: int            // slot of the called function
    var top: int             // highest slot this frame may use
    var k: Option<nat>       // where to resume the C function after a yield
    var ctx: int             // value handed back to that continuation
    var oldErrfunc: int      // error handler saved by a yieldable protected call
    var extra: int           // saved function slot, see lstate.h:81-88
    var nresults: int
    var callstatus: bv16

    constructor (func: int, top: int)
      ensures this.func == func && this.top == top && k == None && callstatus == 0
      ensures extra == 0 && oldErrfunc == 0 && nresults == LUA_MULTRET
    {
      this.func := func;
      this.top := top;
      k := None;
      ctx := 0;
      oldErrfunc := 0;
      extra := 0;
      nresults := LUA_MULTRET;
      callstatus := 0;
    }
  }

  /* Conversion of a signed memory count to the unsigned `lu_mem` type. */
  function ToLuMem(x: int): (r: int)
    ensures 0 <= r < 0x1_0000_0000_0000_0000
    ensures 0 <= x < 0x1_0000_0000_0000_0000 ==> r == x
  {
    x % 0x1_0000_0000_0000_0000
  }

  /* The state shared by all threads of one engine. */
  class GlobalState {
    var totalbytes: int          // bytes allocated minus GCdebt
    var gcDebt: int              // allocation the collector has still to pay back
    var gcstate: int
    var gcrunning: bool
    var gcpause: int
    var gcstepmul: int
    var registry: Value
    var panic: Option<nat>
    var mainthread: LuaState?
    const mt: array<Table?>      // metatables of the basic types

    /* The actual byte count is positive and fits `l_mem`. */
    ghost predicate Valid()
      reads this
    {
      mt.Length == LUA_NUMTAGS && 0 < totalbytes + gcDebt <= MAX_LMEM
    }

    /* `gettotalbytes`: the number of bytes actually allocated. */
    function GetTotalBytes(): (r: int)
      reads this
      ensures Valid() ==> r == totalbytes + gcDebt && r > 0
    {
      ToLuMem(totalbytes + gcDebt)
    }

    /*
     * `luaE_setdebt`: set the debt while keeping the actual byte count; a debt
     * that would push `totalbytes` past MAX_LMEM is raised so that it does not.
     */
    method SetDebt(debt: int)
      requires Valid()
      modifies this`totalbytes, this`gcDebt
      ensures Valid()
      ensures GetTotalBytes() == old(GetTotalBytes())
      ensures gcDebt == if debt < old(GetTotalBytes()) - MAX_LMEM then old(GetTotalBytes()) - MAX_LMEM else debt
      ensures totalbytes <= MAX_LMEM
    {
      var tb := GetTotalBytes();
      var d := debt;
      if d < tb - MAX_LMEM {
        d := tb - MAX_LMEM;
      }
      totalbytes := tb - d;
      gcDebt := d;
    }

    constructor (initialBytes: int)
      requires 0 < initialBytes <= MAX_LMEM
      ensures Valid() && fresh(mt) && totalbytes == initialBytes && gcDebt == 0
      ensures gcrunning == false && registry == Nil && panic == None && mainthread == null
      ensures forall t :: 0 <= t < LUA_NUMTAGS ==> mt[t] == null
    {
      totalbytes := initialBytes;
      gcDebt := 0;
      gcstate := 0;
      gcrunning := false;
      gcpause := 200;
      gcstepmul := 200;
      registry := Nil;
      panic := None;
      mainthread := null;
      mt := new Table?[LUA_NUMTAGS](_ => null);
    }
  }

  /* Per-thread state. */
  class LuaState {
    var stack: array<Value>
    var top: int                 // the slot the next push writes
    var stackLast: int           // last slot usable without EXTRA_STACK
    var ci: CallInfo             // the current frame
    const g: GlobalState
    var errfunc: int             // slot of the message handler, 0 for none
    var allowhook: bool
    var nny: int                 // how many active calls forbid a yield
    var status: int

    /*
     * The stack ends EXTRA_STACK slots past `stack_last`; the current frame's
     * function slot lies below `top`, and its frame top lies within the stack.
     */
    ghost predicate Valid()
      reads this, ci
    {
      && stack.Length == stackLast + EXTRA_STACK
      && 0 <= ci.func < top <= stackLast
      && ci.func < ci.top <= stackLast
      && g.mt.Length == LUA_NUMTAGS
    }

    /* The values of the current frame, from index 1 up to the top. */
    ghost function Frame(): (s: seq<Value>)
      reads this, ci, stack
      requires Valid()
      ensures |s| == top - (ci.func + 1)
    {
      stack[ci.func + 1 .. top]
    }

    /* A thread at its base frame, as created by `lua_newstate`: the function slot holds nil. */
    constructor (g: GlobalState)
      requires g.mt.Length == LUA_NUMTAGS
      ensures Valid() && this.g == g && fresh(stack) && fresh(ci)
      ensures stack.Length == BASIC_STACK_SIZE && top == 1 && ci.func == 0
      ensures ci.top == 1 + LUA_MINSTACK && Frame() == []
      ensures errfunc == 0 && allowhook && nny == 1 && status == LUA_OK
    {
      this.g := g;
      stack := new Value[BASIC_STACK_SIZE](_ => Nil);
      stackLast := BASIC_STACK_SIZE - EXTRA_STACK;
      top := 1;
      ci := new CallInfo(0, 1 + LUA_MINSTACK);
      errfunc := 0;
      allowhook := true;
      nny := 1;
      status := LUA_OK;
    }
  }
}
