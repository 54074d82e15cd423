/*
 * The collector's object lists of lstate.h: every collectable object is on
 * exactly one of `allgc`, `finobj`, `tobefnz` and `fixedgc`. Objects are
 * named by identities; a list is the sequence of identities along its
 * `next` links, head first. The moves between lists are those of lgc.c
 * (`luaC_newobj`, `luaC_checkfinalizer`, `separatetobefnz`,
 * `udata2finalize`, `luaC_fix`, and freeing by the sweep).
 */
module GcLists {

  datatype Lists = Lists(allgc: seq<nat>, finobj: seq<nat>, tobefnz: seq<nat>, fixedgc: seq<nat>)

  /* All four lists, one after the other. */
  function All(l: Lists): seq<nat> {
    l.allgc + l.finobj + l.tobefnz + l.fixedgc
  }

  /* The objects the lists hold. */
  function Objects(l: Lists): multiset<nat> {
    multiset(All(l))
  }

  /* Every object is on one list, once. */
  ghost predicate OneListEach(l: Lists) {
    forall x :: Objects(l)[x] <= 1
  }

  /* The sequence with the first occurrence of `x` unlinked. */
  function Unlink(s: seq<nat>, x: nat): (r: seq<nat>)
    ensures multiset(r) == if x in s then multiset(s) - multiset{x} else multiset(s)
    ensures |r| == if x in s then |s| - 1 else |s|
  {
    if s == [] then []
    else
      assert s == [s[0]] + s[1..];
      if s[0] == x then s[1..] else [s[0]] + Unlink(s[1..], x)
  }

  /* Which list holds `x`: 0 `allgc`, 1 `finobj`, 2 `tobefnz`, 3 `fixedgc`, -1 none. */
  function ListOf(l: Lists, x: nat): int {
    if x in l.allgc then 0 else if x in l.finobj then 1 else if x in l.tobefnz then 2
    else if x in l.fixedgc then 3 else -1
  }

  /* Under the invariant an object is on no list other than the one `ListOf` names. */
  lemma {:induction false} OnlyOneList(l: Lists, x: nat)
    requires OneListEach(l)
    ensures (x in l.allgc) <==> ListOf(l, x) == 0
    ensures (x in l.finobj) <==> ListOf(l, x) == 1
    ensures (x in l.tobefnz) <==> ListOf(l, x) == 2
    ensures (x in l.fixedgc) <==> ListOf(l, x) == 3
    ensures (x in Objects(l)) <==> ListOf(l, x) >= 0
  {
    var c := Objects(l)[x];
    assert c <= 1;
    assert Objects(l) == multiset(l.allgc) + multiset(l.finobj) + multiset(l.tobefnz) + multiset(l.fixedgc);
  }

  /* `luaC_newobj`: a new object goes to the head of `allgc`. */
  function NewObject(l: Lists, x: nat): (r: Lists)
    ensures Objects(r) == Objects(l) + multiset{x}
  {
    l.(allgc := [x] + l.allgc)
  }

  /* `luaC_checkfinalizer`: an object given a metatable with `__gc` moves from `allgc` to the head of `finobj`. */
  function CheckFinalizer(l: Lists, x: nat, hasGcMetamethod: bool): Lists {
    if ListOf(l, x) == 0 && hasGcMetamethod then
      l.(allgc := Unlink(l.allgc, x), finobj := [x] + l.finobj)
    else l
  }

  /* `separatetobefnz`: an unreachable object of `finobj` moves to the end of `tobefnz`. */
  function SeparateToBeFnz(l: Lists, x: nat): (r: Lists)
    requires x in l.finobj
    ensures r.tobefnz == l.tobefnz + [x]
  {
    l.(finobj := Unlink(l.finobj, x), tobefnz := l.tobefnz + [x])
  }

  /* `udata2finalize`: the first object of `tobefnz` goes back to the head of `allgc`. */
  function Udata2Finalize(l: Lists): (r: Lists)
    requires l.tobefnz != []
    ensures r.allgc == [l.tobefnz[0]] + l.allgc && r.tobefnz == l.tobefnz[1..]
  {
    l.(allgc := [l.tobefnz[0]] + l.allgc, tobefnz := l.tobefnz[1..])
  }

  /* `luaC_fix`: the object just created, at the head of `allgc`, moves to `fixedgc`. */
  function Fix(l: Lists): (r: Lists)
    requires l.allgc != []
    ensures r.fixedgc == [l.allgc[0]] + l.fixedgc && r.allgc == l.allgc[1..]
  {
    l.(allgc := l.allgc[1..], fixedgc := [l.allgc[0]] + l.fixedgc)
  }

  /* The sweep frees a dead object of `allgc` or `finobj`. */
  function Free(l: Lists, x: nat): Lists {
    if ListOf(l, x) == 0 then l.(allgc := Unlink(l.allgc, x))
    else if ListOf(l, x) == 1 then l.(finobj := Unlink(l.finobj, x))
    else l
  }

  /* Moving an object between lists keeps the set of objects, and so the invariant. */
  lemma {:induction false} CheckFinalizerKeeps(l: Lists, x: nat, hasGcMetamethod: bool)
    requires OneListEach(l)
    ensures Objects(CheckFinalizer(l, x, hasGcMetamethod)) == Objects(l)
    ensures OneListEach(CheckFinalizer(l, x, hasGcMetamethod))
    ensures ListOf(l, x) == 0 && hasGcMetamethod ==> ListOf(CheckFinalizer(l, x, hasGcMetamethod), x) == 1
    ensures !(ListOf(l, x) == 0 && hasGcMetamethod) ==> CheckFinalizer(l, x, hasGcMetamethod) == l
  {
    var r := CheckFinalizer(l, x, hasGcMetamethod);
    if ListOf(l, x) == 0 && hasGcMetamethod {
      assert Objects(r) == multiset(r.allgc) + multiset(r.finobj) + multiset(l.tobefnz) + multiset(l.fixedgc);
      assert Objects(l) == multiset(l.allgc) + multiset(l.finobj) + multiset(l.tobefnz) + multiset(l.fixedgc);
      assert Objects(r) == Objects(l);
      assert x in r.finobj;
      OnlyOneList(r, x);
    }
  }

  lemma {:induction false} SeparateToBeFnzKeeps(l: Lists, x: nat)
    requires OneListEach(l) && x in l.finobj
    ensures Objects(SeparateToBeFnz(l, x)) == Objects(l)
    ensures OneListEach(SeparateToBeFnz(l, x))
    ensures ListOf(SeparateToBeFnz(l, x), x) == 2
    ensures x !in SeparateToBeFnz(l, x).allgc && x !in SeparateToBeFnz(l, x).finobj
  {
    var r := SeparateToBeFnz(l, x);
    assert Objects(r) == multiset(l.allgc) + multiset(r.finobj) + multiset(r.tobefnz) + multiset(l.fixedgc);
    assert Objects(l) == multiset(l.allgc) + multiset(l.finobj) + multiset(l.tobefnz) + multiset(l.fixedgc);
    assert Objects(r) == Objects(l);
    assert x in r.tobefnz;
    OnlyOneList(r, x);
  }

  lemma {:induction false} Udata2FinalizeKeeps(l: Lists)
    requires OneListEach(l) && l.tobefnz != []
    ensures Objects(Udata2Finalize(l)) == Objects(l)
    ensures OneListEach(Udata2Finalize(l))
    ensures ListOf(Udata2Finalize(l), l.tobefnz[0]) == 0
    ensures l.tobefnz[0] !in Udata2Finalize(l).tobefnz
  {
    var r := Udata2Finalize(l);
    assert l.tobefnz == [l.tobefnz[0]] + l.tobefnz[1..];
    assert Objects(r) == multiset(r.allgc) + multiset(l.finobj) + multiset(r.tobefnz) + multiset(l.fixedgc);
    assert Objects(l) == multiset(l.allgc) + multiset(l.finobj) + multiset(l.tobefnz) + multiset(l.fixedgc);
    assert Objects(r) == Objects(l);
    assert l.tobefnz[0] in r.allgc;
    OnlyOneList(r, l.tobefnz[0]);
  }

  lemma {:induction false} FixKeeps(l: Lists)
    requires OneListEach(l) && l.allgc != []
    ensures Objects(Fix(l)) == Objects(l)
    ensures OneListEach(Fix(l))
    ensures ListOf(Fix(l), l.allgc[0]) == 3
    ensures l.allgc[0] !in Fix(l).allgc
  {
    var r := Fix(l);
    var x := l.allgc[0];
    assert l.allgc == [x] + l.allgc[1..];
    assert Objects(r) == multiset(r.allgc) + multiset(l.finobj) + multiset(l.tobefnz) + multiset(r.fixedgc);
    assert Objects(l) == multiset(l.allgc) + multiset(l.finobj) + multiset(l.tobefnz) + multiset(l.fixedgc);
    assert Objects(r) == Objects(l);
    assert x in r.fixedgc;
    OnlyOneList(r, x);
  }

  /* A new object that is on no list keeps the invariant, and is then on `allgc`. */
  lemma NewObjectKeeps(l: Lists, x: nat)
    requires OneListEach(l) && x !in Objects(l)
    ensures OneListEach(NewObject(l, x)) && ListOf(NewObject(l, x), x) == 0
  {
    var r := NewObject(l, x);
    forall y
      ensures Objects(r)[y] <= 1
    {
      assert Objects(r)[y] == Objects(l)[y] + (if y == x then 1 else 0);
    }
  }

  /* Freeing an object of `allgc` or `finobj` takes one copy of it out of the lists. */
  lemma {:induction false} FreeObjects(l: Lists, x: nat)
    ensures Objects(Free(l, x)) == if ListOf(l, x) == 0 || ListOf(l, x) == 1 then Objects(l) - multiset{x} else Objects(l)
  {
    if ListOf(l, x) == 0 {
      FreeFromAllgc(l, x);
    } else if ListOf(l, x) == 1 {
      FreeFromFinobj(l, x);
    }
  }

  lemma FreeFromAllgc(l: Lists, x: nat)
    requires ListOf(l, x) == 0
    ensures Objects(Free(l, x)) == Objects(l) - multiset{x}
  {
    var r := Free(l, x);
    ObjectsSplit(l);
    ObjectsSplit(r);
    assert r.allgc == Unlink(l.allgc, x) && x in multiset(l.allgc);
    MinusFirst(multiset(l.allgc), multiset(l.finobj), multiset(l.tobefnz), multiset(l.fixedgc), multiset(r.allgc), x);
  }

  lemma FreeFromFinobj(l: Lists, x: nat)
    requires ListOf(l, x) == 1
    ensures Objects(Free(l, x)) == Objects(l) - multiset{x}
  {
    var r := Free(l, x);
    ObjectsSplit(l);
    ObjectsSplit(r);
    assert r.allgc == l.allgc && r.finobj == Unlink(l.finobj, x) && x in multiset(l.finobj);
    MinusSecond(multiset(l.allgc), multiset(l.finobj), multiset(l.tobefnz), multiset(l.fixedgc), multiset(r.finobj), x);
  }

  lemma MinusFirst(a: multiset<nat>, b: multiset<nat>, c: multiset<nat>, d: multiset<nat>, a': multiset<nat>, x: nat)
    requires x in a && a' == a - multiset{x}
    ensures a' + b + c + d == (a + b + c + d) - multiset{x}
  {
    assert forall y :: (a' + b + c + d)[y] == ((a + b + c + d) - multiset{x})[y];
  }

  lemma MinusSecond(a: multiset<nat>, b: multiset<nat>, c: multiset<nat>, d: multiset<nat>, b': multiset<nat>, x: nat)
    requires x in b && b' == b - multiset{x}
    ensures a + b' + c + d == (a + b + c + d) - multiset{x}
  {
    assert forall y :: (a + b' + c + d)[y] == ((a + b + c + d) - multiset{x})[y];
  }

  /* Freeing keeps the invariant and leaves the object on no list. */
  lemma {:induction false} FreeKeeps(l: Lists, x: nat)
    requires OneListEach(l)
    ensures OneListEach(Free(l, x))
    ensures ListOf(l, x) == 0 || ListOf(l, x) == 1 ==> ListOf(Free(l, x), x) == -1
  {
    var r := Free(l, x);
    FreeObjects(l, x);
    forall y
      ensures Objects(r)[y] <= 1
    {
      assert Objects(r)[y] <= Objects(l)[y];
    }
    if ListOf(l, x) == 0 || ListOf(l, x) == 1 {
      OnlyOneList(l, x);
      assert Objects(r)[x] == 0;
      OnlyOneList(r, x);
    }
  }

  /* The objects of the lists, list by list. */
  lemma ObjectsSplit(l: Lists)
    ensures Objects(l) == multiset(l.allgc) + multiset(l.finobj) + multiset(l.tobefnz) + multiset(l.fixedgc)
  {
    assert All(l) == l.allgc + l.finobj + l.tobefnz + l.fixedgc;
  }
}
