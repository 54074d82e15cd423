/*
 * Raw table access, metatables and `lua_concat` through the host API
 * (lapi.c): `lua_rawget`, `lua_rawgeti`, `lua_rawgetp`, `lua_rawset`,
 * `lua_rawseti`, `lua_rawsetp`, `lua_getmetatable`, `lua_setmetatable`
 * and `lua_concat`.
 */
module TableApi {
  import opened State
  import opened StackApi

  /* `luaH_get`: the value a table holds for a key; an absent key reads as nil. */
  function RawValue(t: Table, k: Value): Value
    reads t
  {
    if k in t.hash then t.hash[k] else Nil
  }

  /* The table at an index, which the raw accessors demand (`api_check(ttistable)`). */
  ghost predicate TableAt(L: LuaState, idx: int)
    reads L, L.ci, L.stack, L.g, RunningClosure(L)
    requires L.Valid()
  {
    Acceptable(L, idx) && ValueAt(L, idx).TableRef?
  }

  /* `lua_rawget`: replace the key on top of the stack by its raw value in the table at `idx`. */
  method RawGet(L: LuaState, idx: int) returns (tag: int)
    requires L.Valid() && TableAt(L, idx) && L.ci.func + 1 < L.top
    modifies L.stack
    ensures L.Valid()
    ensures var v := old(RawValue(ValueAt(L, idx).t, L.stack[L.top - 1]));
      && L.stack[..] == old(L.stack[..])[L.top - 1 := v]
      && tag == TypeTag(v)
  {
    var t := ValueAt(L, idx).t;
    var v := RawValue(t, L.stack[L.top - 1]);
    L.stack[L.top - 1] := v;
    tag := TypeTag(v);
  }

  /* `lua_rawgeti`: push the raw value of the integer key `n`. */
  method RawGetI(L: LuaState, idx: int, n: int) returns (tag: int)
    requires L.Valid() && TableAt(L, idx) && L.top < L.ci.top
    modifies L`top, L.stack
    ensures L.Valid() && L.top == old(L.top) + 1
    ensures var v := old(RawValue(ValueAt(L, idx).t, Integer(n)));
      && L.stack[..] == old(L.stack[..])[old(L.top) := v]
      && tag == TypeTag(v)
  {
    var v := RawValue(ValueAt(L, idx).t, Integer(n));
    Push(L, v);
    tag := TypeTag(v);
  }

  /* `lua_rawgetp`: push the raw value of the light-userdata key `p`. */
  method RawGetP(L: LuaState, idx: int, p: nat) returns (tag: int)
    requires L.Valid() && TableAt(L, idx) && L.top < L.ci.top
    modifies L`top, L.stack
    ensures L.Valid() && L.top == old(L.top) + 1
    ensures var v := old(RawValue(ValueAt(L, idx).t, LightUserdata(p)));
      && L.stack[..] == old(L.stack[..])[old(L.top) := v]
      && tag == TypeTag(v)
  {
    var v := RawValue(ValueAt(L, idx).t, LightUserdata(p));
    Push(L, v);
    tag := TypeTag(v);
  }

  /*
   * `lua_rawset`: store the value on top under the key just below it in the
   * table at `idx`, clear the table's metamethod cache and pop both. A nil
   * key is the error `luaH_newkey` raises ("index is nil"): it is reported
   * as `ok == false`, with the table and the stack as they were.
   */
  method RawSet(L: LuaState, idx: int) returns (ok: bool)
    requires L.Valid() && TableAt(L, idx) && 2 < L.top - L.ci.func
    modifies L`top, ValueAt(L, idx).t
    ensures L.Valid()
    ensures var t, k, v := old(ValueAt(L, idx).t), old(L.stack[L.top - 2]), old(L.stack[L.top - 1]);
      && (ok <==> !k.Nil?)
      && t.metatable == old(t.metatable)
      && (ok ==> t.hash == old(t.hash)[k := v] && t.flags == 0 && L.top == old(L.top) - 2)
      && (ok ==> RawValue(t, k) == v)
      && (!ok ==> t.hash == old(t.hash) && t.flags == old(t.flags) && L.top == old(L.top))
  {
    var t := ValueAt(L, idx).t;
    var k := L.stack[L.top - 2];
    if k.Nil? {
      return false;
    }
    t.hash := t.hash[k := L.stack[L.top - 1]];
    t.flags := 0;    // invalidateTMcache
    L.top := L.top - 2;
    ok := true;
  }

  /* `lua_rawseti`: store the value on top under the integer key `n` and pop it. */
  method RawSetI(L: LuaState, idx: int, n: int)
    requires L.Valid() && TableAt(L, idx) && 1 < L.top - L.ci.func
    modifies L`top, ValueAt(L, idx).t`hash
    ensures L.Valid() && L.top == old(L.top) - 1
    ensures var t := old(ValueAt(L, idx).t);
      && t.hash == old(t.hash)[Integer(n) := old(L.stack[L.top - 1])]
      && RawValue(t, Integer(n)) == old(L.stack[L.top - 1])
  {
    var t := ValueAt(L, idx).t;
    t.hash := t.hash[Integer(n) := L.stack[L.top - 1]];
    L.top := L.top - 1;
  }

  /* `lua_rawsetp`: store the value on top under the light-userdata key `p` and pop it. */
  method RawSetP(L: LuaState, idx: int, p: nat)
    requires L.Valid() && TableAt(L, idx) && 1 < L.top - L.ci.func
    modifies L`top, ValueAt(L, idx).t`hash
    ensures L.Valid() && L.top == old(L.top) - 1
    ensures var t := old(ValueAt(L, idx).t);
      && t.hash == old(t.hash)[LightUserdata(p) := old(L.stack[L.top - 1])]
      && RawValue(t, LightUserdata(p)) == old(L.stack[L.top - 1])
  {
    var t := ValueAt(L, idx).t;
    t.hash := t.hash[LightUserdata(p) := L.stack[L.top - 1]];
    L.top := L.top - 1;
  }

  /*
   * The metatable `lua_getmetatable` consults: a table's or a full
   * userdata's own, otherwise the one registered for the value's basic type
   * (the invalid sentinel reads as nil).
   */
  function MetatableOf(g: GlobalState, v: Value): Table?
    reads g, g.mt, if v.TableRef? then {v.t} else if v.UserdataRef? then {v.u} else {}
    requires g.mt.Length == LUA_NUMTAGS
  {
    match v
    case TableRef(t) => t.metatable
    case UserdataRef(u) => u.metatable
    case _ => g.mt[TypeTag(v)]
  }

  /* `lua_getmetatable`: push the metatable of the value at `objindex` and return 1, or return 0. */
  method GetMetatable(L: LuaState, objindex: int) returns (res: int)
    requires L.Valid() && Acceptable(L, objindex)
    requires MetatableOf(L.g, ValueAt(L, objindex)) != null ==> L.top < L.ci.top
    modifies L`top, L.stack
    ensures L.Valid()
    ensures var mt := old(MetatableOf(L.g, ValueAt(L, objindex)));
      && (res == 1 <==> mt != null) && (res == 0 <==> mt == null)
      && (mt == null ==> L.top == old(L.top) && L.stack[..] == old(L.stack[..]))
      && (mt != null ==> L.top == old(L.top) + 1 && L.stack[..] == old(L.stack[..])[old(L.top) := TableRef(mt)])
  {
    var mt := MetatableOf(L.g, ValueAt(L, objindex));
    if mt != null {
      Push(L, TableRef(mt));
      res := 1;
    } else {
      res := 0;
    }
  }

  /*
   * `lua_setmetatable`: pop a table (or nil, meaning none) and make it the
   * metatable of the value at `objindex`: its own for a table or full
   * userdata, otherwise the one shared by all values of its basic type.
   */
  method SetMetatable(L: LuaState, objindex: int) returns (res: int)
    requires L.Valid() && Acceptable(L, objindex) && 1 < L.top - L.ci.func
    requires L.stack[L.top - 1].Nil? || L.stack[L.top - 1].TableRef?
    modifies L`top, L.g.mt
    modifies (if ValueAt(L, objindex).TableRef? then {ValueAt(L, objindex).t} else {})`metatable
    modifies (if ValueAt(L, objindex).UserdataRef? then {ValueAt(L, objindex).u} else {})`metatable
    ensures L.Valid() && L.top == old(L.top) - 1 && res == 1
    ensures var o, m := old(ValueAt(L, objindex)), old(L.stack[L.top - 1]);
      var mt := if m.Nil? then null else m.t;
      && MetatableOf(L.g, o) == mt
      && ((o.TableRef? || o.UserdataRef?) ==> L.g.mt[..] == old(L.g.mt[..]))
      && (!(o.TableRef? || o.UserdataRef?) ==> L.g.mt[..] == old(L.g.mt[..])[TypeTag(o) := mt])
  {
    var o := ValueAt(L, objindex);
    var m := L.stack[L.top - 1];
    var mt: Table? := if m.Nil? then null else m.t;
    match o {
      case TableRef(t) => t.metatable := mt;
      case UserdataRef(u) => u.metatable := mt;
      case _ => L.g.mt[TypeTag(o)] := mt;
    }
    L.top := L.top - 1;
    res := 1;
  }

  /* The slots after `Concat`: all below the new top kept, `joined` at the new top. */
  lemma ConcatSlots(before: seq<Value>, after: seq<Value>, base: int, newTop: int, oldTop: int, joined: Value)
    requires 0 <= base < newTop <= oldTop <= |before|
    requires after == before[newTop - 1 := joined]
    ensures after[..newTop - 1] == before[..newTop - 1]
    ensures after[base..newTop] == before[base..oldTop][..newTop - 1 - base] + [joined]
  {
    assert after[base..newTop] == after[base..newTop - 1] + [joined];
    assert after[base..newTop - 1] == before[base..newTop - 1];
  }

  /*
   * `lua_concat`: with no values push the empty string; with one leave it;
   * with `n >= 2` the `n` values on top are replaced by the result of
   * `luaV_concat` (lvm.c), which is given here as `joined`. The slots above
   * the new top are left unspecified: `luaV_concat` works in them.
   */
  method Concat(L: LuaState, n: int, joined: Value)
    requires L.Valid() && n < L.top - L.ci.func
    requires n == 0 ==> L.top < L.ci.top
    modifies L`top, L.stack
    ensures L.Valid()
    ensures n == 0 ==> L.top == old(L.top) + 1 && L.stack[..] == old(L.stack[..])[old(L.top) := Str("")]
    ensures n < 2 && n != 0 ==> L.top == old(L.top) && L.stack[..] == old(L.stack[..])
    ensures n >= 2 ==>
      && L.top == old(L.top) - n + 1
      && L.stack[..L.top - 1] == old(L.stack[..])[..L.top - 1] && L.stack[L.top - 1] == joined
      && L.Frame() == old(L.Frame())[..GetTop(L) - 1] + [joined]
  {
    if n >= 2 {
      ghost var before := L.stack[..];
      assert L.Frame() == before[L.ci.func + 1..L.top];
      L.top := L.top - n;
      L.stack[L.top] := joined;
      L.top := L.top + 1;
      ConcatSlots(before, L.stack[..], L.ci.func + 1, L.top, old(L.top), joined);
    } else if n == 0 {
      Push(L, Str(""));
    }
  }
}
