/*
 * `lua_gc` (lapi.c): the host's control over the garbage collector. The
 * collector's own work (`luaC_fullgc`, `luaC_step`, `luaC_checkGC` of lgc.c)
 * is outside this model; for a step, the collector state it ends in is a
 * parameter.
 */
module GcApi {
  import opened State

  /* The options of `lua_gc` (lua.h of Lua 5.3); 8 is unused. */
  const LUA_GCSTOP: int := 0
  const LUA_GCRESTART: int := 1
  const LUA_GCCOLLECT: int := 2
  const LUA_GCCOUNT: int := 3
  const LUA_GCCOUNTB: int := 4
  const LUA_GCSTEP: int := 5
  const LUA_GCSETPAUSE: int := 6
  const LUA_GCSETSTEPMUL: int := 7
  const LUA_GCISRUNNING: int := 9

  /* The collector state between cycles (lgc.h). */
  const GCSpause: int := 7

  const INT_MIN: int := -0x8000_0000
  const INT_MAX: int := 0x7FFF_FFFF

  /* `cast_int` of a wider unsigned value: the low 32 bits, read as two's complement. */
  function CastInt(x: int): (r: int)
    ensures INT_MIN <= r <= INT_MAX
    ensures (r - x) % 0x1_0000_0000 == 0
    ensures INT_MIN <= x <= INT_MAX ==> r == x
  {
    var low := x % 0x1_0000_0000;
    if low <= INT_MAX then low else low - 0x1_0000_0000
  }

  /* LUA_GCCOUNT: the byte count in Kbytes, `gettotalbytes(g) >> 10`. */
  function KCount(tb: nat): int {
    CastInt(tb / 1024)
  }

  /* LUA_GCCOUNTB: the bytes past the last whole Kbyte, `gettotalbytes(g) & 0x3ff`. */
  function KRemainder(tb: nat): (r: int)
    ensures 0 <= r < 1024
  {
    tb % 1024
  }

  /* The two counts together give the byte count back while it fits 2^41 bytes (a 32-bit Kbyte count). */
  lemma CountsRecombine(tb: nat)
    requires tb / 1024 <= INT_MAX
    ensures KCount(tb) * 1024 + KRemainder(tb) == tb
  {
  }

  /* LUA_GCSETSTEPMUL clamps the multiplier from below at 40. */
  function StepMul(data: int): (r: int)
    ensures r >= 40
    ensures data >= 40 ==> r == data
    ensures data < 40 ==> r == 40
  {
    if data < 40 then 40 else data
  }

  /*
   * A multiplier already set passes the clamp unchanged, so setting it twice
   * gives what setting it once gave, and the clamp never lowers a value.
   */
  lemma StepMulIdempotent(data: int)
    ensures StepMul(StepMul(data)) == StepMul(data)
    ensures StepMul(data) >= data
  {
  }

  /* The debt `luaE_setdebt` leaves after it is asked for `debt` with `tb` bytes in use. */
  function ClampedDebt(tb: int, debt: int): int {
    if debt < tb - MAX_LMEM then tb - MAX_LMEM else debt
  }

  /*
   * The local `debt` of LUA_GCSTEP: 1 for a small step, otherwise `data`
   * Kbytes added to the current debt; LUA_GCSTEP reports 1 when this is
   * positive and the step ended a cycle.
   */
  function StepDebt(data: int, gcDebt: int): int {
    if data == 0 then 1 else data * 1024 + gcDebt
  }

  /*
   * The collector fields as `luaC_fullgc` or `luaC_step` (lgc.c) leave them:
   * the bytes still allocated, the new debt, and the collector state.
   */
  datatype Collected = Collected(totalbytes: int, gcDebt: int, gcstate: int)

  /* The collector keeps the actual byte count positive and within `l_mem`. */
  predicate CollectedOk(c: Collected) {
    0 < c.totalbytes + c.gcDebt <= MAX_LMEM
  }

  /*
   * Whether LUA_GCSTEP runs the collector: a small step always calls
   * `luaC_step`; otherwise `luaC_checkGC` calls it only when the debt it was
   * just given is positive.
   */
  predicate StepRuns(data: int, debtSet: int) {
    data == 0 || debtSet > 0
  }

  /*
   * `lua_gc`. `stepSize` is GCSTEPSIZE (lgc.h) and `collected` the state in
   * which the collector leaves the collector fields when LUA_GCCOLLECT or
   * LUA_GCSTEP makes it run.
   */
  method Gc(L: LuaState, what: int, data: int, stepSize: int, collected: Collected) returns (res: int)
    requires L.g.Valid() && INT_MIN <= data <= INT_MAX
    requires CollectedOk(collected)
    modifies L.g`gcrunning, L.g`totalbytes, L.g`gcDebt, L.g`gcstate, L.g`gcpause, L.g`gcstepmul
    ensures L.g.Valid()
    ensures what != LUA_GCCOLLECT && what != LUA_GCSTEP ==>
      && L.g.GetTotalBytes() == old(L.g.GetTotalBytes()) && L.g.gcstate == old(L.g.gcstate)
    ensures what != LUA_GCRESTART && what != LUA_GCCOLLECT && what != LUA_GCSTEP ==> L.g.gcDebt == old(L.g.gcDebt)
    ensures what != LUA_GCSETPAUSE ==> L.g.gcpause == old(L.g.gcpause)
    ensures what != LUA_GCSETSTEPMUL ==> L.g.gcstepmul == old(L.g.gcstepmul)
    ensures what != LUA_GCSTOP && what != LUA_GCRESTART ==> L.g.gcrunning == old(L.g.gcrunning)
    ensures what == LUA_GCSTOP ==> !L.g.gcrunning && res == 0
    ensures what == LUA_GCRESTART ==> L.g.gcrunning && L.g.gcDebt == 0 && res == 0
    ensures what == LUA_GCCOLLECT ==>
      && L.g.totalbytes == collected.totalbytes && L.g.gcDebt == collected.gcDebt
      && L.g.gcstate == collected.gcstate && res == 0
    ensures what == LUA_GCCOUNT ==> res == KCount(L.g.GetTotalBytes())
    ensures what == LUA_GCCOUNTB ==> res == KRemainder(L.g.GetTotalBytes())
    ensures what == LUA_GCSTEP ==>
      var debt := StepDebt(data, old(L.g.gcDebt));
      var debtSet := ClampedDebt(old(L.g.GetTotalBytes()), if data == 0 then -stepSize else debt);
      && (StepRuns(data, debtSet) ==>
            && L.g.totalbytes == collected.totalbytes && L.g.gcDebt == collected.gcDebt
            && L.g.gcstate == collected.gcstate)
      && (!StepRuns(data, debtSet) ==>
            && L.g.gcDebt == debtSet && L.g.GetTotalBytes() == old(L.g.GetTotalBytes())
            && L.g.gcstate == old(L.g.gcstate))
      && (res == 1 <==> debt > 0 && L.g.gcstate == GCSpause) && (res == 0 || res == 1)
    ensures what == LUA_GCSETPAUSE ==> res == old(L.g.gcpause) && L.g.gcpause == data
    ensures what == LUA_GCSETSTEPMUL ==> res == old(L.g.gcstepmul) && L.g.gcstepmul == StepMul(data)
    ensures what == LUA_GCISRUNNING ==> res == (if L.g.gcrunning then 1 else 0)
    ensures !(LUA_GCSTOP <= what <= LUA_GCSETSTEPMUL || what == LUA_GCISRUNNING) ==> res == -1
  {
    var g := L.g;
    res := 0;
    if what == LUA_GCSTOP {
      g.gcrunning := false;
    } else if what == LUA_GCRESTART {
      g.SetDebt(0);
      g.gcrunning := true;
    } else if what == LUA_GCCOLLECT {
      Collect(g, collected);   // luaC_fullgc
    } else if what == LUA_GCCOUNT {
      res := KCount(g.GetTotalBytes());
    } else if what == LUA_GCCOUNTB {
      res := KRemainder(g.GetTotalBytes());
    } else if what == LUA_GCSTEP {
      var debt := 1;
      var oldrunning := g.gcrunning;
      g.gcrunning := true;
      if data == 0 {
        g.SetDebt(-stepSize);
        Collect(g, collected);   // luaC_step
      } else {
        debt := data * 1024 + g.gcDebt;
        g.SetDebt(debt);
        if g.gcDebt > 0 {
          Collect(g, collected);   // luaC_checkGC
        }
      }
      g.gcrunning := oldrunning;
      if debt > 0 && g.gcstate == GCSpause {
        res := 1;
      }
    } else if what == LUA_GCSETPAUSE {
      res := g.gcpause;
      g.gcpause := data;
    } else if what == LUA_GCSETSTEPMUL {
      res := g.gcstepmul;
      g.gcstepmul := StepMul(data);
    } else if what == LUA_GCISRUNNING {
      res := if g.gcrunning then 1 else 0;
    } else {
      res := -1;
    }
  }

  /* The collector's work, which leaves the collector fields as `collected` says. */
  method Collect(g: GlobalState, collected: Collected)
    requires g.mt.Length == LUA_NUMTAGS && CollectedOk(collected)
    modifies g`totalbytes, g`gcDebt, g`gcstate
    ensures g.Valid()
    ensures g.totalbytes == collected.totalbytes && g.gcDebt == collected.gcDebt && g.gcstate == collected.gcstate
  {
    g.totalbytes := collected.totalbytes;
    g.gcDebt := collected.gcDebt;
    g.gcstate := collected.gcstate;
  }
}
