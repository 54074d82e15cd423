/*
 * Index resolution and basic stack manipulation of the host API (lapi.c):
 * `index2addr`, `lua_absindex`, `lua_gettop`, `lua_settop`, `lua_rotate`,
 * `lua_copy`, `lua_pushvalue`, `lua_checkstack`, `lua_xmove` and the push
 * functions.
 */
module StackApi {
  import opened State
  import opened Segments

  /*
   * What an index resolves to: a stack slot, the registry value, an upvalue
   * of the running C closure, or the invalid sentinel (`luaO_nilobject`).
   */
  datatype Addr = Invalid | Slot(i: int) | Registry | Upvalue(cl: CClosure, k: nat)

  /* `ispseudo`: the registry index and the upvalue indices below it. */
  predicate IsPseudo(idx: int) {
    idx <= LUA_REGISTRYINDEX
  }

  /* `isupvalue`. */
  predicate IsUpvalueIndex(idx: int) {
    idx < LUA_REGISTRYINDEX
  }

  /* `lua_upvalueindex` of lua.h: the pseudo-index of upvalue `i` (1-based). */
  function UpvalueIndex(i: int): int {
    LUA_REGISTRYINDEX - i
  }

  /* The closure whose upvalues the pseudo-indices name, when the current function is a C closure. */
  ghost function RunningClosure(L: LuaState): set<object>
    reads L, L.ci, L.stack
    requires L.Valid()
  {
    if L.stack[L.ci.func].CClosureRef? then {L.stack[L.ci.func].c} else {}
  }

  /* The number of upvalues of the running function: none unless it is a C closure. */
  ghost function UpvalueCount(L: LuaState): nat
    reads L, L.ci, L.stack, RunningClosure(L)
    requires L.Valid()
  {
    match L.stack[L.ci.func]
    case CClosureRef(cl) => |cl.upvalue|
    case _ => 0
  }

  ghost function AddrObjects(a: Addr): set<object> {
    if a.Upvalue? then {a.cl} else {}
  }

  /* The address names storage that exists. */
  ghost predicate AddrOk(L: LuaState, a: Addr)
    reads L, AddrObjects(a)
  {
    match a
    case Slot(i) => 0 <= i < L.stack.Length
    case Upvalue(cl, k) => k < |cl.upvalue|
    case _ => true
  }

  /*
   * The `api_check` conditions of `index2addr`: a positive index within the
   * frame's declared top, a negative index within the frame, the registry, or
   * an upvalue index not above MAXUPVAL + 1 while a C function runs.
   */
  ghost predicate Acceptable(L: LuaState, idx: int)
    reads L, L.ci, L.stack
    requires L.Valid()
  {
    if idx > 0 then idx <= L.ci.top - (L.ci.func + 1)
    else if !IsPseudo(idx) then idx != 0 && -idx <= L.top - (L.ci.func + 1)
    else if idx == LUA_REGISTRYINDEX then true
    else
      && LUA_REGISTRYINDEX - idx <= MAXUPVAL + 1
      && (L.stack[L.ci.func].LightCFunction? || L.stack[L.ci.func].CClosureRef?)
  }

  /* `index2addr`: resolve an acceptable index. */
  function Index2Addr(L: LuaState, idx: int): (a: Addr)
    reads L, L.ci, L.stack, RunningClosure(L)
    requires L.Valid() && Acceptable(L, idx)
    ensures AddrOk(L, a)
    ensures a.Slot? ==> L.ci.func < a.i < L.top
    ensures idx > 0 ==>
      (a.Slot? <==> L.ci.func + idx < L.top) && (a.Slot? ==> a.i == L.ci.func + idx) && (a.Slot? || a.Invalid?)
    ensures idx <= 0 && !IsPseudo(idx) ==> a == Slot(L.top + idx)
    ensures idx == LUA_REGISTRYINDEX ==> a == Registry
    ensures IsUpvalueIndex(idx) ==> a.Upvalue? || a.Invalid?
    ensures IsUpvalueIndex(idx) && a.Upvalue? ==>
      L.stack[L.ci.func] == CClosureRef(a.cl) && a.k == LUA_REGISTRYINDEX - idx - 1
    ensures IsUpvalueIndex(idx) ==> (a.Upvalue? <==> LUA_REGISTRYINDEX - idx <= UpvalueCount(L))
  {
    if idx > 0 then
      if L.ci.func + idx >= L.top then Invalid else Slot(L.ci.func + idx)
    else if !IsPseudo(idx) then
      Slot(L.top + idx)
    else if idx == LUA_REGISTRYINDEX then
      Registry
    else
      var n := LUA_REGISTRYINDEX - idx;
      match L.stack[L.ci.func]
      case CClosureRef(cl) => if n <= |cl.upvalue| then Upvalue(cl, n - 1) else Invalid
      case _ => Invalid   // a light C function has no upvalues
  }

  /* The value stored at an address; the invalid sentinel reads as nil. */
  function Get(L: LuaState, a: Addr): Value
    reads L, L.stack, L.g, AddrObjects(a)
    requires AddrOk(L, a)
  {
    match a
    case Invalid => Nil
    case Slot(i) => L.stack[i]
    case Registry => L.g.registry
    case Upvalue(cl, k) => cl.upvalue[k]
  }

  /* The value an API function sees at an acceptable index. */
  function ValueAt(L: LuaState, idx: int): Value
    reads L, L.ci, L.stack, L.g, RunningClosure(L)
    requires L.Valid() && Acceptable(L, idx)
  {
    Get(L, Index2Addr(L, idx))
  }

  /* `lua_type`: the basic type at an index, or LUA_TNONE for the invalid sentinel. */
  function Type(L: LuaState, idx: int): (t: int)
    reads L, L.ci, L.stack, L.g, RunningClosure(L)
    requires L.Valid() && Acceptable(L, idx)
    ensures t == LUA_TNONE <==> Index2Addr(L, idx).Invalid?
    ensures t != LUA_TNONE ==> t == TypeTag(ValueAt(L, idx))
  {
    var a := Index2Addr(L, idx);
    if a.Invalid? then LUA_TNONE else TypeTag(Get(L, a))
  }

  /* `lua_absindex`: an index that names the same slot whatever is pushed later. */
  function AbsIndex(L: LuaState, idx: int): int
    reads L, L.ci
  {
    if idx > 0 || IsPseudo(idx) then idx else (L.top - L.ci.func) + idx
  }

  /*
   * An absolute index resolves exactly as the index it came from; for a
   * negative index this needs the stack top to lie within the frame's top.
   */
  lemma AbsIndexResolvesAlike(L: LuaState, idx: int)
    requires L.Valid() && Acceptable(L, idx)
    requires L.top <= L.ci.top
    ensures AbsIndex(L, idx) > 0 || IsPseudo(AbsIndex(L, idx))
    ensures Acceptable(L, AbsIndex(L, idx))
    ensures Index2Addr(L, AbsIndex(L, idx)) == Index2Addr(L, idx)
  {
    if idx <= 0 && !IsPseudo(idx) {
      var a := AbsIndex(L, idx);
      assert a == L.top - L.ci.func + idx;
      assert 0 < a <= L.ci.top - (L.ci.func + 1);
    }
  }

  /* `lua_gettop`: the number of values in the current frame. */
  function GetTop(L: LuaState): (r: int)
    reads L, L.ci, L.stack
    requires L.Valid()
    ensures r == |L.Frame()| && r >= 0
  {
    L.top - (L.ci.func + 1)
  }

  /* `n` nil values. */
  function Nils(n: nat): (s: seq<Value>)
    ensures |s| == n && forall i :: 0 <= i < n ==> s[i] == Nil
  {
    seq(n, _ => Nil)
  }

  /* Store a value at a valid address (`setobj` on the resolved address). */
  method Put(L: LuaState, a: Addr, v: Value)
    requires AddrOk(L, a) && !a.Invalid?
    modifies (if a.Slot? then {L.stack} else {}), (if a.Registry? then {L.g} else {})`registry, AddrObjects(a)
    ensures a.Slot? ==> L.stack[..] == old(L.stack[..])[a.i := v]
    ensures a.Registry? ==> L.g.registry == v
    ensures a.Upvalue? ==> a.cl.upvalue == old(a.cl.upvalue)[a.k := v]
  {
    match a
    case Slot(i) => L.stack[i] := v;
    case Registry => L.g.registry := v;
    case Upvalue(cl, k) => cl.upvalue := cl.upvalue[k := v];
    case Invalid =>
  }

  /* `lua_copy`: copy the value at `fromidx` into the valid address `toidx`. */
  method Copy(L: LuaState, fromidx: int, toidx: int)
    requires L.Valid() && Acceptable(L, fromidx) && Acceptable(L, toidx)
    requires !Index2Addr(L, toidx).Invalid?
    modifies L.stack, L.g`registry, RunningClosure(L)
    ensures L.Valid()
    ensures var to := old(Index2Addr(L, toidx));
      && (to.Slot? ==> L.stack[..] == old(L.stack[..])[to.i := old(ValueAt(L, fromidx))])
      && (!to.Slot? ==> L.stack[..] == old(L.stack[..]))
      && (!to.Registry? ==> L.g.registry == old(L.g.registry))
      && (to.Upvalue? ==> to.cl.upvalue == old(to.cl.upvalue)[to.k := old(ValueAt(L, fromidx))])
      && (!to.Upvalue? && L.stack[L.ci.func].CClosureRef? ==>
            L.stack[L.ci.func].c.upvalue == old(L.stack[L.ci.func].c.upvalue))
      && Acceptable(L, toidx) && Index2Addr(L, toidx) == to
      && Get(L, to) == old(ValueAt(L, fromidx))
  {
    var fr := Index2Addr(L, fromidx);
    var to := Index2Addr(L, toidx);
    var v := Get(L, fr);
    Put(L, to, v);
    // A store into an upvalue runs the collector's barrier, not modelled here.
  }

  /* `setobj` at the top followed by `api_incr_top`. */
  method Push(L: LuaState, v: Value)
    requires L.Valid() && L.top < L.ci.top
    modifies L`top, L.stack
    ensures L.Valid() && L.top == old(L.top) + 1
    ensures L.stack[..] == old(L.stack[..])[old(L.top) := v]
    ensures L.Frame() == old(L.Frame()) + [v]
  {
    L.stack[L.top] := v;
    L.top := L.top + 1;
    assert L.Frame() == old(L.Frame()) + [v];
  }

  /* `lua_pushvalue`: push a copy of the value at `idx`. */
  method PushValue(L: LuaState, idx: int)
    requires L.Valid() && Acceptable(L, idx) && L.top < L.ci.top
    modifies L`top, L.stack
    ensures L.Valid() && L.top == old(L.top) + 1
    ensures L.Frame() == old(L.Frame()) + [old(ValueAt(L, idx))]
    ensures L.stack[..] == old(L.stack[..])[old(L.top) := old(ValueAt(L, idx))]
  {
    Push(L, ValueAt(L, idx));
  }

  method PushNil(L: LuaState)
    requires L.Valid() && L.top < L.ci.top
    modifies L`top, L.stack
    ensures L.Valid() && L.Frame() == old(L.Frame()) + [Nil]
    ensures L.top == old(L.top) + 1 && L.stack[..] == old(L.stack[..])[old(L.top) := Nil]
  {
    Push(L, Nil);
  }

  /* `lua_pushnumber`: floating-point values are carried by their bits only. */
  method PushNumber(L: LuaState, bits: int)
    requires L.Valid() && L.top < L.ci.top
    modifies L`top, L.stack
    ensures L.Valid() && L.Frame() == old(L.Frame()) + [Float(bits)]
    ensures L.top == old(L.top) + 1 && L.stack[..] == old(L.stack[..])[old(L.top) := Float(bits)]
  {
    Push(L, Float(bits));
  }

  method PushInteger(L: LuaState, n: int)
    requires L.Valid() && L.top < L.ci.top
    modifies L`top, L.stack
    ensures L.Valid() && L.Frame() == old(L.Frame()) + [Integer(n)]
    ensures L.top == old(L.top) + 1 && L.stack[..] == old(L.stack[..])[old(L.top) := Integer(n)]
  {
    Push(L, Integer(n));
  }

  /* `lua_pushboolean`: any nonzero `b` is true. */
  method PushBoolean(L: LuaState, b: int)
    requires L.Valid() && L.top < L.ci.top
    modifies L`top, L.stack
    ensures L.Valid() && L.Frame() == old(L.Frame()) + [Boolean(b != 0)]
    ensures L.top == old(L.top) + 1 && L.stack[..] == old(L.stack[..])[old(L.top) := Boolean(b != 0)]
  {
    Push(L, Boolean(b != 0));
  }

  method PushLightUserdata(L: LuaState, p: nat)
    requires L.Valid() && L.top < L.ci.top
    modifies L`top, L.stack
    ensures L.Valid() && L.Frame() == old(L.Frame()) + [LightUserdata(p)]
    ensures L.top == old(L.top) + 1 && L.stack[..] == old(L.stack[..])[old(L.top) := LightUserdata(p)]
  {
    Push(L, LightUserdata(p));
  }

  /* `lua_pushlstring`: push the string and return its internal copy. */
  method PushLString(L: LuaState, s: string) returns (r: string)
    requires L.Valid() && L.top < L.ci.top
    modifies L`top, L.stack
    ensures L.Valid() && L.Frame() == old(L.Frame()) + [Str(s)] && r == s
    ensures L.top == old(L.top) + 1 && L.stack[..] == old(L.stack[..])[old(L.top) := Str(s)]
  {
    Push(L, Str(s));
    r := s;
  }

  /* `lua_pushstring`: a NULL string pushes nil and returns NULL. */
  method PushString(L: LuaState, s: Option<string>) returns (r: Option<string>)
    requires L.Valid() && L.top < L.ci.top
    modifies L`top, L.stack
    ensures L.Valid() && r == s
    ensures L.Frame() == old(L.Frame()) + [if s.None? then Nil else Str(s.value)]
    ensures L.top == old(L.top) + 1 && L.stack[..] == old(L.stack[..])[old(L.top) := if s.None? then Nil else Str(s.value)]
  {
    if s.None? {
      Push(L, Nil);
    } else {
      Push(L, Str(s.value));
    }
    r := s;
  }

  /* `lua_pushthread`: push the thread itself; answer whether it is the main thread. */
  method PushThread(L: LuaState) returns (isMain: bool)
    requires L.Valid() && L.top < L.ci.top
    modifies L`top, L.stack
    ensures L.Valid() && L.Frame() == old(L.Frame()) + [ThreadRef(L)]
    ensures L.top == old(L.top) + 1 && L.stack[..] == old(L.stack[..])[old(L.top) := ThreadRef(L)]
    ensures isMain <==> L.g.mainthread == L
  {
    Push(L, ThreadRef(L));
    isMain := L.g.mainthread == L;
  }

  /* `lua_settop`: a nonnegative index sets the top, a negative one pops. */
  method SetTop(L: LuaState, idx: int)
    requires L.Valid()
    requires idx >= 0 ==> idx <= L.stackLast - (L.ci.func + 1)
    requires idx < 0 ==> -(idx + 1) <= L.top - (L.ci.func + 1)
    modifies L`top, L.stack
    ensures L.Valid()
    ensures GetTop(L) == if idx >= 0 then idx else old(GetTop(L)) + idx + 1
    ensures L.top <= old(L.top) ==> L.stack[..] == old(L.stack[..])
    ensures L.top > old(L.top) ==>
      L.stack[..] == old(L.stack[..])[..old(L.top)] + Nils(L.top - old(L.top)) + old(L.stack[..])[L.top..]
  {
    var func := L.ci.func;
    if idx >= 0 {
      if L.top < (func + 1) + idx {
        FillNil(L.stack, L.top, (func + 1) + idx);
      }
      L.top := (func + 1) + idx;
    } else {
      L.top := L.top + idx + 1;
    }
  }

  /* The `setnilvalue(L->top++)` loop of `lua_settop`: nil-fill `a[from..to]`. */
  method FillNil(a: array<Value>, from: int, to: int)
    requires 0 <= from <= to <= a.Length
    modifies a
    ensures a[..] == old(a[..from]) + Nils(to - from) + old(a[to..])
  {
    var top := from;
    while top < to
      invariant from <= top <= to
      invariant forall i :: from <= i < top ==> a[i] == Nil
      invariant forall i :: 0 <= i < a.Length && !(from <= i < top) ==> a[i] == old(a[i])
    {
      a[top] := Nil;
      top := top + 1;
    }
    assert a[..] == old(a[..from]) + Nils(to - from) + old(a[to..]) by {
      var q := old(a[..from]) + Nils(to - from) + old(a[to..]);
      assert forall i :: 0 <= i < a.Length ==> a[i] == q[i];
    }
  }

  /* `reverse`: reverse the stack segment from `from` to `to`, both included. */
  method Reverse(a: array<Value>, from: int, to: int)
    requires 0 <= from <= to + 1 <= a.Length
    modifies a
    ensures a[..] == ReverseRange(old(a[..]), from, to)
  {
    ghost var o := a[..];
    var lo, hi := from, to;
    while lo < hi
      invariant from <= lo <= hi + 1 <= to + 1
      invariant ReverseRange(a[..], lo, hi) == ReverseRange(o, from, to)
      decreases hi - lo
    {
      var temp := a[lo];
      a[lo] := a[hi];
      a[hi] := temp;
      lo, hi := lo + 1, hi - 1;
    }
  }

  /*
   * `lua_rotate`: rotate the values from `idx` to the top by `n` positions
   * toward the top, by three in-place reversals.
   */
  method Rotate(L: LuaState, idx: int, n: int)
    requires L.Valid() && Acceptable(L, idx)
    requires Index2Addr(L, idx).Slot? && !IsPseudo(idx)
    requires (if n >= 0 then n else -n) <= L.top - Index2Addr(L, idx).i
    modifies L.stack
    ensures var p := old(Index2Addr(L, idx).i);
      L.stack[..] == old(L.stack[..p]) + Rotated(old(L.stack[p..L.top]), n) + old(L.stack[L.top..])
  {
    var p := Index2Addr(L, idx).i;
    var t := L.top - 1;
    RotateSegment(L.stack, p, t, n);
    assert t + 1 == L.top;
  }

  /* Rotate `a[p..t]` (both included) by `n`: reverse prefix, suffix, whole. */
  method RotateSegment(a: array<Value>, p: int, t: int, n: int)
    requires 0 <= p <= t + 1 <= a.Length && (if n >= 0 then n else -n) <= t + 1 - p
    modifies a
    ensures a[..] == old(a[..p]) + Rotated(old(a[p..t + 1]), n) + old(a[t + 1..])
  {
    var m := if n >= 0 then t - n else p - n - 1;
    ghost var s0 := a[..];
    Reverse(a, p, m);      // reverse the prefix
    ghost var s1 := a[..];
    Reverse(a, m + 1, t);  // reverse the suffix
    ghost var s2 := a[..];
    Reverse(a, p, t);      // reverse the entire segment
    RotateSteps(s0, s1, s2, a[..], p, m, t, n);
  }

  /*
   * Stands in for `luaD_growstack` (ldo.c is not part of this model): move
   * the stack to a larger array, keeping every slot and nil-filling the rest.
   */
  method GrowStack(L: LuaState, newsize: int)
    requires L.Valid() && L.stack.Length <= newsize
    modifies L`stack, L`stackLast
    ensures L.Valid() && fresh(L.stack)
    ensures L.stack.Length == newsize && L.stackLast == newsize - EXTRA_STACK
    ensures L.stack[..old(L.stack.Length)] == old(L.stack[..])
    ensures forall i :: old(L.stack.Length) <= i < newsize ==> L.stack[i] == Nil
  {
    var a := new Value[newsize];
    ghost var was := L.stack[..];
    var i := 0;
    while i < newsize
      invariant 0 <= i <= newsize
      invariant L.stack[..] == was
      invariant forall k :: 0 <= k < i ==> a[k] == if k < |was| then was[k] else Nil
    {
      a[i] := if i < L.stack.Length then L.stack[i] else Nil;
      i := i + 1;
    }
    L.stack := a;
    L.stackLast := newsize - EXTRA_STACK;
    assert L.stack[..|was|] == was;
  }

  /*
   * `lua_checkstack`: make room for `n` more values. `grown` is the outcome
   * of the protected `luaD_growstack`: the new stack size, or None when the
   * allocation failed.
   */
  method CheckStack(L: LuaState, n: int, grown: Option<int>) returns (res: bool)
    requires L.Valid() && n >= 0
    requires grown.Some? ==> L.stack.Length <= grown.value && L.top + n + EXTRA_STACK <= grown.value
    modifies L`stack, L`stackLast, L.ci`top
    ensures L.Valid()
    ensures old(L.stackLast - L.top > n) ==> res && L.stack == old(L.stack)
    ensures !old(L.stackLast - L.top > n) && old(L.top) + EXTRA_STACK > LUAI_MAXSTACK - n ==> !res
    ensures !old(L.stackLast - L.top > n) && old(L.top) + EXTRA_STACK <= LUAI_MAXSTACK - n ==> res == grown.Some?
    ensures !res ==> L.stack == old(L.stack) && L.stackLast == old(L.stackLast) && L.ci.top == old(L.ci.top)
    ensures res ==> L.ci.top >= L.top + n && L.top + n <= L.stackLast
    ensures res ==> L.ci.top == if old(L.ci.top) < L.top + n then L.top + n else old(L.ci.top)
    ensures L.stack[..L.top] == old(L.stack[..L.top]) && L.Frame() == old(L.Frame())
  {
    if L.stackLast - L.top > n {
      res := true;
    } else {
      var inuse := L.top + EXTRA_STACK;
      if inuse > LUAI_MAXSTACK - n {
        res := false;
      } else {
        res := grown.Some?;
        if res {
          GrowStack(L, grown.value);
        }
      }
    }
    if res && L.ci.top < L.top + n {
      L.ci.top := L.top + n;
    }
    assert L.Frame() == L.stack[..L.top][L.ci.func + 1..];
  }

  /*
   * `lua_xmove`: pop `n` values from `from` and push them, in order, onto
   * `to`; nothing happens when both are the same thread.
   */
  method XMove(from: LuaState, to: LuaState, n: int)
    requires from.Valid() && to.Valid()
    requires from != to ==> 0 <= n < from.top - from.ci.func && from.g == to.g
    requires from != to ==> to.ci.top - to.top >= n && from.stack != to.stack
    modifies from`top, to`top, to.stack
    ensures from.Valid() && to.Valid()
    ensures from == to ==> from.top == old(from.top) && to.stack[..] == old(to.stack[..])
    ensures from != to ==>
      && from.top == old(from.top) - n && to.top == old(to.top) + n
      && to.stack[..] == old(to.stack[..to.top]) + old(from.stack[from.top - n..from.top]) + old(to.stack[to.top + n..])
  {
    if from == to {
      return;
    }
    from.top := from.top - n;
    CopyInto(from.stack, from.top, to.stack, to.top, n);
    to.top := to.top + n;
  }

  /* The copy loop of `lua_xmove`: `n` values from `src[at..]` into `dst[into..]`. */
  method CopyInto(src: array<Value>, at: int, dst: array<Value>, into: int, n: int)
    requires src != dst
    requires 0 <= n && 0 <= at && at + n <= src.Length && 0 <= into && into + n <= dst.Length
    modifies dst
    ensures dst[..] == old(dst[..into]) + src[at..at + n] + old(dst[into + n..])
  {
    var i := 0;
    while i < n
      invariant 0 <= i <= n
      invariant forall j :: into <= j < into + i ==> dst[j] == src[at + (j - into)]
      invariant forall k :: 0 <= k < dst.Length && !(into <= k < into + i) ==> dst[k] == old(dst[k])
    {
      dst[into + i] := src[at + i];
      i := i + 1;
    }
    assert dst[..] == old(dst[..into]) + src[at..at + n] + old(dst[into + n..]) by {
      var q := old(dst[..into]) + src[at..at + n] + old(dst[into + n..]);
      assert forall k :: 0 <= k < dst.Length ==> dst[k] == q[k];
    }
  }
}
