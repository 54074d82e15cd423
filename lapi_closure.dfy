/*
 * Closures and their upvalues through the host API (lapi.c):
 * `lua_pushcclosure`, `aux_upvalue`, `lua_getupvalue`, `lua_setupvalue`,
 * `lua_upvalueid` and `lua_upvaluejoin`.
 */
module ClosureApi {
  import opened State
  import opened StackApi

  /*
   * `lua_pushcclosure`: with no upvalues push a light C function; otherwise
   * pop the top `n` values into a new C closure (value `i` of the popped
   * block becomes upvalue `i`) and push the closure.
   */
  method PushCClosure(L: LuaState, fn: nat, n: int)
    requires L.Valid() && 0 <= n <= MAXUPVAL
    requires n == 0 ==> L.top < L.ci.top
    requires n > 0 ==> n < L.top - L.ci.func && L.top - n < L.ci.top
    modifies L`top, L.stack
    ensures L.Valid() && L.top == old(L.top) - n + 1
    ensures n == 0 ==> L.stack[L.top - 1] == LightCFunction(fn)
    ensures n > 0 ==>
      && L.stack[L.top - 1].CClosureRef? && fresh(L.stack[L.top - 1].c)
      && L.stack[L.top - 1].c.f == fn
      && L.stack[L.top - 1].c.upvalue == old(L.stack[L.top - n..L.top])
    ensures forall i :: 0 <= i < L.stack.Length && i != L.top - 1 ==> L.stack[i] == old(L.stack[i])
  {
    if n == 0 {
      L.stack[L.top] := LightCFunction(fn);
    } else {
      var cl := new CClosure(fn, n);
      L.top := L.top - n;
      var i := n;
      while i > 0
        invariant 0 <= i <= n && |cl.upvalue| == n
        invariant 0 <= L.top && L.top + n <= L.stack.Length
        invariant forall k :: i <= k < n ==> cl.upvalue[k] == L.stack[L.top + k]
        invariant L.stack[..] == old(L.stack[..]) && L.top == old(L.top) - n
      {
        i := i - 1;
        cl.upvalue := cl.upvalue[i := L.stack[L.top + i]];
      }
      assert cl.upvalue == old(L.stack[L.top - n..L.top]);
      L.stack[L.top] := CClosureRef(cl);
    }
    L.top := L.top + 1;
  }

  /* Where `aux_upvalue` finds an upvalue: a slot of a C closure or the cell of a Lua closure. */
  datatype UpvalueRef = CSlot(cl: CClosure, k: nat) | LCell(cell: UpVal)

  /* What `aux_upvalue` reports: the upvalue's name and where its value lives. */
  datatype Found = Found(name: string, ref: UpvalueRef)

  ghost function RefObjects(r: Option<Found>): set<object> {
    match r
    case Some(Found(_, CSlot(cl, _))) => {cl}
    case Some(Found(_, LCell(cell))) => {cell}
    case None => {}
  }

  /* The upvalue location names storage that exists. */
  ghost predicate RefOk(r: UpvalueRef)
    reads if r.CSlot? then {r.cl} else {}
  {
    r.CSlot? ==> r.k < |r.cl.upvalue|
  }

  /*
   * `aux_upvalue`: upvalue `n` (1-based) of the closure `fi`. A C closure's
   * upvalues have the empty name; a Lua closure's carry the name its
   * prototype records, or "(*no name)" when that was stripped. Anything
   * that is not a closure, and an `n` out of range, gives nothing.
   */
  function AuxUpvalue(fi: Value, n: int): (r: Option<Found>)
    reads if fi.CClosureRef? then {fi.c} else if fi.LClosureRef? then {fi.l} else {}
    requires fi.LClosureRef? ==> fi.l.Valid()
    ensures r.Some? <==>
      || (fi.CClosureRef? && 1 <= n <= |fi.c.upvalue|)
      || (fi.LClosureRef? && 1 <= n <= |fi.l.upvalueNames|)
    ensures r.Some? && fi.CClosureRef? ==> r.value == Found("", CSlot(fi.c, n - 1))
    ensures r.Some? && fi.LClosureRef? ==>
      && r.value.ref == LCell(fi.l.upvals[n - 1])
      && (fi.l.upvalueNames[n - 1].Some? ==> r.value.name == fi.l.upvalueNames[n - 1].value)
      && (fi.l.upvalueNames[n - 1].None? ==> r.value.name == "(*no name)")
    ensures r.Some? && r.value.ref.CSlot? ==> r.value.ref.k < |r.value.ref.cl.upvalue|
  {
    match fi
    case CClosureRef(f) =>
      if !(1 <= n <= |f.upvalue|) then None else Some(Found("", CSlot(f, n - 1)))
    case LClosureRef(f) =>
      if !(1 <= n <= |f.upvalueNames|) then None
      else Some(Found(match f.upvalueNames[n - 1] case None => "(*no name)" case Some(s) => s,
                      LCell(f.upvals[n - 1])))
    case _ => None
  }

  /* The value an upvalue location currently holds. */
  function UpvalueValue(r: UpvalueRef): Value
    reads if r.CSlot? then {r.cl} else {r.cell}
    requires RefOk(r)
  {
    match r
    case CSlot(cl, k) => cl.upvalue[k]
    case LCell(cell) => cell.v
  }

  /* The closure at an index has a well-formed upvalue table when it is a Lua closure. */
  ghost predicate ClosureOk(L: LuaState, idx: int)
    reads L, L.ci, L.stack, L.g, RunningClosure(L)
    requires L.Valid() && Acceptable(L, idx)
    reads if ValueAt(L, idx).LClosureRef? then {ValueAt(L, idx).l} else {}
  {
    ValueAt(L, idx).LClosureRef? ==> ValueAt(L, idx).l.Valid()
  }

  /*
   * `lua_getupvalue`: push the value of upvalue `n` of the closure at
   * `funcindex` and return its name; push nothing when there is no such
   * upvalue.
   */
  method GetUpvalue(L: LuaState, funcindex: int, n: int) returns (name: Option<string>)
    requires L.Valid() && Acceptable(L, funcindex) && ClosureOk(L, funcindex)
    requires AuxUpvalue(ValueAt(L, funcindex), n).Some? ==> L.top < L.ci.top
    modifies L`top, L.stack
    ensures L.Valid()
    ensures var r := old(AuxUpvalue(ValueAt(L, funcindex), n));
      && (r.None? ==> name.None? && L.top == old(L.top) && L.stack[..] == old(L.stack[..]))
      && (r.Some? ==> name == Some(r.value.name) && L.top == old(L.top) + 1
                      && L.stack[..] == old(L.stack[..])[old(L.top) := old(UpvalueValue(r.value.ref))])
  {
    var r := AuxUpvalue(ValueAt(L, funcindex), n);
    if r.Some? {
      Push(L, UpvalueValue(r.value.ref));
      name := Some(r.value.name);
    } else {
      name := None;
    }
  }

  /*
   * `lua_setupvalue`: pop the top value into upvalue `n` of the closure at
   * `funcindex` and return its name; with no such upvalue nothing is
   * popped.
   */
  method SetUpvalue(L: LuaState, funcindex: int, n: int) returns (name: Option<string>)
    requires L.Valid() && Acceptable(L, funcindex) && ClosureOk(L, funcindex)
    requires 1 < L.top - L.ci.func
    modifies L`top, RefObjects(AuxUpvalue(ValueAt(L, funcindex), n))
    ensures L.Valid()
    ensures var r := old(AuxUpvalue(ValueAt(L, funcindex), n));
      && (r.None? ==> name.None? && L.top == old(L.top))
      && (r.Some? ==> name == Some(r.value.name) && L.top == old(L.top) - 1)
      && (r.Some? && r.value.ref.CSlot? ==>
            r.value.ref.cl.upvalue == old(r.value.ref.cl.upvalue)[r.value.ref.k := old(L.stack[L.top - 1])])
      && (r.Some? && r.value.ref.LCell? ==>
            && r.value.ref.cell.v == old(L.stack[L.top - 1])
            && r.value.ref.cell.refcount == old(r.value.ref.cell.refcount)
            && r.value.ref.cell.open == old(r.value.ref.cell.open)
            && r.value.ref.cell.touched == old(r.value.ref.cell.touched))
  {
    var r := AuxUpvalue(ValueAt(L, funcindex), n);
    if r.Some? {
      L.top := L.top - 1;
      var v := L.stack[L.top];
      match r.value.ref {
        case CSlot(cl, k) => cl.upvalue := cl.upvalue[k := v];
        case LCell(cell) => cell.v := v;
      }
      name := Some(r.value.name);
    } else {
      name := None;
    }
  }

  /*
   * While a C closure runs, its upvalue `n` is both the storage named by the
   * pseudo-index `lua_upvalueindex(n)` and the location `aux_upvalue`
   * reports, so `lua_getupvalue` and the pseudo-index read the same value.
   */
  lemma PseudoIndexIsAuxUpvalue(L: LuaState, n: int)
    requires L.Valid() && L.stack[L.ci.func].CClosureRef?
    requires 1 <= n <= |L.stack[L.ci.func].c.upvalue| && n <= MAXUPVAL + 1
    ensures Acceptable(L, UpvalueIndex(n))
    ensures var cl := L.stack[L.ci.func].c;
      && Index2Addr(L, UpvalueIndex(n)) == Upvalue(cl, n - 1)
      && AuxUpvalue(L.stack[L.ci.func], n) == Some(Found("", CSlot(cl, n - 1)))
      && ValueAt(L, UpvalueIndex(n)) == UpvalueValue(CSlot(cl, n - 1))
  {
    var a := Index2Addr(L, UpvalueIndex(n));
    assert a.Upvalue?;
  }

  /*
   * `lua_upvalueid`: the identity of upvalue `n` of the closure at `fidx`:
   * the shared cell of a Lua closure, the slot of a C closure.
   */
  function UpvalueId(L: LuaState, fidx: int, n: int): (id: UpvalueRef)
    reads L, L.ci, L.stack, L.g, RunningClosure(L)
    reads if ValueAt(L, fidx).CClosureRef? then {ValueAt(L, fidx).c}
          else if ValueAt(L, fidx).LClosureRef? then {ValueAt(L, fidx).l} else {}
    requires L.Valid() && Acceptable(L, fidx) && ClosureOk(L, fidx)
    requires ValueAt(L, fidx).LClosureRef? || ValueAt(L, fidx).CClosureRef?
    requires ValueAt(L, fidx).LClosureRef? ==> 1 <= n <= |ValueAt(L, fidx).l.upvalueNames|
    requires ValueAt(L, fidx).CClosureRef? ==> 1 <= n <= |ValueAt(L, fidx).c.upvalue|
    ensures AuxUpvalue(ValueAt(L, fidx), n).Some? && id == AuxUpvalue(ValueAt(L, fidx), n).value.ref
  {
    match ValueAt(L, fidx)
    case LClosureRef(f) => LCell(f.upvals[n - 1])
    case CClosureRef(f) => CSlot(f, n - 1)
  }

  /*
   * `lua_upvaluejoin`: make upvalue `n1` of the Lua closure at `fidx1` refer
   * to the cell of upvalue `n2` of the Lua closure at `fidx2`. The old
   * cell loses a reference, the new one gains one, and an open cell is
   * marked touched. When both already share one cell nothing is done: see
   * `JoinCellsAsWritten` for what the unguarded sequence does then.
   */
  method UpvalueJoin(L: LuaState, fidx1: int, n1: int, fidx2: int, n2: int)
    requires L.Valid() && Acceptable(L, fidx1) && Acceptable(L, fidx2)
    requires ValueAt(L, fidx1).LClosureRef? && ValueAt(L, fidx1).l.Valid()
    requires ValueAt(L, fidx2).LClosureRef? && ValueAt(L, fidx2).l.Valid()
    requires 1 <= n1 <= |ValueAt(L, fidx1).l.upvalueNames|
    requires 1 <= n2 <= |ValueAt(L, fidx2).l.upvalueNames|
    modifies ValueAt(L, fidx1).l, ValueAt(L, fidx1).l.upvals[n1 - 1], ValueAt(L, fidx2).l.upvals[n2 - 1]
    ensures var f1, f2 := old(ValueAt(L, fidx1).l), old(ValueAt(L, fidx2).l);
      var c1, c2 := old(f1.upvals[n1 - 1]), old(f2.upvals[n2 - 1]);
      && f1.Valid() && f1.upvals == old(f1.upvals)[n1 - 1 := c2]
      && f1.upvals[n1 - 1] == f2.upvals[n2 - 1]
      && c1.v == old(c1.v) && c1.open == old(c1.open) && c2.v == old(c2.v) && c2.open == old(c2.open)
      && (c1 == c2 ==> c1.refcount == old(c1.refcount) && c1.touched == old(c1.touched))
      && (c1 != c2 ==>
            && c1.refcount == old(c1.refcount) - 1 && c1.touched == old(c1.touched)
            && c2.refcount == old(c2.refcount) + 1 && c2.touched == (old(c2.touched) || c2.open))
  {
    var f1 := ValueAt(L, fidx1).l;
    var f2 := ValueAt(L, fidx2).l;
    var up1 := f1.upvals[n1 - 1];
    var up2 := f2.upvals[n2 - 1];
    if up1 == up2 {
      return;
    }
    up1.refcount := up1.refcount - 1;   // luaC_upvdeccount
    f1.upvals := f1.upvals[n1 - 1 := up2];
    up2.refcount := up2.refcount + 1;
    if up2.open {
      up2.touched := true;
    }
  }

  /* The reference count of an upvalue cell, whether it is open, and whether its storage was released. */
  datatype CellState = CellState(refcount: int, open: bool, freed: bool)

  /*
   * `luaC_upvdeccount` (lgc.c): drop one reference; a closed cell left
   * without references is freed.
   */
  function DecCount(c: CellState): (r: CellState)
    ensures r.refcount == c.refcount - 1 && r.open == c.open
    ensures r.freed <==> c.freed || (c.refcount == 1 && !c.open)
  {
    CellState(c.refcount - 1, c.open, c.freed || (c.refcount - 1 == 0 && !c.open))
  }

  /* `(*up1)->refcount++`. */
  function IncCount(c: CellState): (r: CellState)
    ensures r.refcount == c.refcount + 1 && r.open == c.open && r.freed == c.freed
  {
    c.(refcount := c.refcount + 1)
  }

  /*
   * Dropping a reference and adding it back restores a live cell exactly when
   * the drop did not free it: when the cell is open or had other references.
   */
  lemma DropThenAddRestores(c: CellState)
    requires !c.freed
    ensures IncCount(DecCount(c)) == c <==> c.open || c.refcount != 1
  {
  }

  /*
   * The cells after the counting steps of `lua_upvaluejoin` as the source
   * writes them: release the cell `u1` upvalue `n1` uses, then count one more
   * reference to the cell `u2` it is made to use, whether or not the two are
   * the same cell.
   */
  function JoinCellsAsWritten(cells: map<nat, CellState>, u1: nat, u2: nat): map<nat, CellState>
    requires u1 in cells && u2 in cells
  {
    var m := cells[u1 := DecCount(cells[u1])];
    m[u2 := IncCount(m[u2])]
  }

  /*
   * Joining an upvalue with the cell it already uses, when that cell is
   * closed and has no other reference, frees the cell and then keeps using
   * it: the closure is left pointing at released storage.
   */
  lemma JoinWithItselfFreesLiveCell()
    ensures var after := JoinCellsAsWritten(map[0 := CellState(1, false, false)], 0, 0);
      after[0].freed && after[0].refcount == 1
  {
  }

  /* The counting steps with the guard `UpvalueJoin` has: nothing happens when the cells coincide. */
  function JoinCells(cells: map<nat, CellState>, u1: nat, u2: nat): map<nat, CellState>
    requires u1 in cells && u2 in cells
  {
    if u1 == u2 then cells else JoinCellsAsWritten(cells, u1, u2)
  }

  /*
   * With the guard the cell the upvalue is made to use stays live and gains
   * exactly the reference the join adds; only the abandoned cell can be
   * freed, and no other cell changes.
   */
  lemma JoinCellsKeepsTargetLive(cells: map<nat, CellState>, u1: nat, u2: nat)
    requires u1 in cells && u2 in cells && !cells[u2].freed
    ensures u2 in JoinCells(cells, u1, u2) && !JoinCells(cells, u1, u2)[u2].freed
    ensures JoinCells(cells, u1, u2)[u2].refcount == cells[u2].refcount + (if u1 == u2 then 0 else 1)
    ensures u1 != u2 ==> JoinCells(cells, u1, u2)[u1] == DecCount(cells[u1])
    ensures forall u :: u in cells && u != u1 && u != u2 ==> u in JoinCells(cells, u1, u2) && JoinCells(cells, u1, u2)[u] == cells[u]
  {
  }
}
