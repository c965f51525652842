/** What a collection keeps and what not (lgc.c) */
module GCStrong {
  // What a program can use through strong references is kept by every step of the collector, with its contents.

  import opened Basics
  import opened GCHeap
  import opened GCInvariant
  import opened GCAtomic
  import opened GCSweep
  import opened GCThreads

  // ---- strong references -----------------------------------------------------------------------------------

  // Where a program starts from
  function ProgramRoots(g: Snap): set<Id> {
    {g.main, g.reg, g.run} + g.mt.Values
  }

  predicate IsString(h: Heap, x: Id) {
    x in h && h[x].Str?
  }

  // A value that does not go while the objects of c stay
  predicate Stays(h: Heap, c: set<Id>, v: Value) {
    v.Ref? ==> v.id in c || IsString(h, v.id)
  }

  // iscleared takes it for gone as a value of the hash part of a weak table, even if only the keys are weak.
  predicate FinalizedUdata(h: Heap, m: Marking, v: Value) {
    v.Ref? && v.id in h && h[v.id].Udata? && v.id in m && m[v.id].finalized
  }

  // An entry that stays in a table with this mode while the objects of c stay
  predicate EntryStays(h: Heap, m: Marking, c: set<Id>, n: Node, wk: bool, wv: bool) {
    && n.val != Nil
    && (wk || wv ==>
        && !FinalizedUdata(h, m, n.val) && (wk && n.key.KeyOf? ==> Stays(h, c, n.key.v)) && (wv ==> Stays(h, c, n.val)))
  }

  predicate NodesStay(h: Heap, m: Marking, c: set<Id>, ns: seq<Node>, wk: bool, wv: bool, r: Id) {
    exists i :: 0 <= i < |ns| && EntryStays(h, m, c, ns[i], wk, wv) && NodeRefers(ns[i], r)
  }

  predicate TableStrong(h: Heap, m: Marking, c: set<Id>, t: Obj, wk: bool, wv: bool, r: Id) {
    && t.Tab?
    && (t.mt == Some(r) || (HasRef(t.arr, r) && (wv ==> IsString(h, r))) || NodesStay(h, m, c, t.nodes, wk, wv, r))
  }

  /** x refers to r strongly, while the objects of c stay.  The other part of an entry of a weak table is only kept with
      its weak part, and an object that waits for its finalizer is kept for that alone. */
  predicate StrongRef(g: Snap, c: set<Id>, x: Id, r: Id) {
    && x in g.h && x !in g.tmu
    && var t := g.h[x];
       if t.Tab? then TableStrong(g.h, g.m, c, t, WeakMode(g.h, t.mt).0, WeakMode(g.h, t.mt).1, r)
       else Refers(g.h, t, r)
  }

  ghost predicate StrongClosed(g: Snap, c: set<Id>) {
    ProgramRoots(g) <= c && forall x, r :: x in c && StrongRef(g, c, x, r) ==> r in c
  }

  /** The least set that contains the roots and what its objects refer to strongly. */
  ghost predicate Strong(g: Snap, x: Id) {
    forall c: set<Id> :: StrongClosed(g, c) ==> x in c
  }

  ghost function StrongSet(g: Snap): set<Id> {
    set x | x in g.h && Strong(g, x)
  }

  lemma StrongLeast(g: Snap, c: set<Id>)
    requires StrongClosed(g, c)
    ensures StrongSet(g) <= c
  {
  }

  lemma StrongMore(g: Snap, c: set<Id>, c': set<Id>, x: Id, r: Id)
    requires StrongRef(g, c, x, r) && c <= c'
    ensures StrongRef(g, c', x, r)
  {
    var t := g.h[x];
    if t.Tab? {
      var (wk, wv) := WeakMode(g.h, t.mt);
      if NodesStay(g.h, g.m, c, t.nodes, wk, wv, r) {
        var i :| 0 <= i < |t.nodes| && EntryStays(g.h, g.m, c, t.nodes[i], wk, wv) && NodeRefers(t.nodes[i], r);
        assert EntryStays(g.h, g.m, c', t.nodes[i], wk, wv);
      }
    }
  }

  lemma StrongRefers(g: Snap, c: set<Id>, x: Id, r: Id)
    requires StrongRef(g, c, x, r)
    ensures x in g.h && Refers(g.h, g.h[x], r)
  {
    var t := g.h[x];
    if t.Tab? {
      var (wk, wv) := WeakMode(g.h, t.mt);
      if NodesStay(g.h, g.m, c, t.nodes, wk, wv, r) {
        var i :| 0 <= i < |t.nodes| && EntryStays(g.h, g.m, c, t.nodes[i], wk, wv) && NodeRefers(t.nodes[i], r);
        assert NodesRefer(t.nodes, r);
      }
    }
  }

  // What holds in every state: roots and references of objects that are not dead are not dead.
  ghost predicate Alive(g: Snap) {
    && Live(g.h, g.m, g.cw) && (forall r :: r in ProgramRoots(g) ==> r in g.h && !Dead(g.m, g.cw, r))
    && (forall u :: u in g.tmu ==> u in g.h && g.h[u].Udata?) && g.m.Keys == g.h.Keys
  }

  lemma CommonAlive(g: Snap)
    requires Common(g)
    ensures Alive(g)
  {
    hide Upvalues, Placed, Colors, Live, Covers;
    assert ProgramRoots(g) <= Roots(g);
    TmuAreUdata(g);
  }

  ghost function NotDead(g: Snap): set<Id> {
    set x | x in g.h && !Dead(g.m, g.cw, x)
  }

  lemma StrongAlive(g: Snap)
    requires Alive(g)
    ensures StrongSet(g) <= NotDead(g)
  {
    hide StrongRef, Refers;
    forall x, r | x in NotDead(g) && StrongRef(g, NotDead(g), x, r)
      ensures r in NotDead(g)
    {
      StrongRefers(g, NotDead(g), x, r);
    }
    StrongLeast(g, NotDead(g));
  }

  lemma StrongIsClosed(g: Snap)
    requires Alive(g)
    ensures StrongClosed(g, StrongSet(g))
  {
    hide StrongRef, Refers;
    StrongAlive(g);
    var s := StrongSet(g);
    forall x, r | x in s && StrongRef(g, s, x, r)
      ensures r in s
    {
      StrongRefers(g, s, x, r);
      forall c: set<Id> | StrongClosed(g, c)
        ensures r in c
      {
        StrongLeast(g, c);
        StrongMore(g, s, c, x, r);
      }
    }
  }

  /** All that is strong can be reached. */
  lemma StrongReach(g: Snap)
    requires Alive(g)
    ensures forall x :: x in StrongSet(g) ==> Reach(g.h, ProgramRoots(g), x)
  {
    hide StrongRef, Refers, Reach;
    var c := Reachable(g.h, ProgramRoots(g));
    forall x | x in ProgramRoots(g)
      ensures x in c
    {
      ReachStart(g.h, ProgramRoots(g), x);
    }
    StrongAlive(g);
    var d := c * NotDead(g);
    forall x, r | x in d && StrongRef(g, d, x, r)
      ensures r in d
    {
      StrongRefers(g, d, x, r);
      ReachStep(g.h, ProgramRoots(g), x, r);
    }
    StrongLeast(g, d);
  }

  /** Without weak tables, and while no object waits for its finalizer, all that can be reached is strong. */
  lemma ReachStrong(g: Snap)
    requires Alive(g) && g.tmu == []
    requires forall x :: x in g.h && g.h[x].Tab? ==> WeakMode(g.h, g.h[x].mt) == (false, false)
    ensures forall x :: Reach(g.h, ProgramRoots(g), x) ==> x in StrongSet(g)
  {
    hide Refers, Reach, Strong;
    StrongIsClosed(g);
    var s := StrongSet(g);
    forall x, r | x in g.h && x in s && Refers(g.h, g.h[x], r)
      ensures r in s
    {
      AllStrong(g, s, x, r);
    }
    forall x | Reach(g.h, ProgramRoots(g), x)
      ensures x in s
    {
      ReachInside(g.h, ProgramRoots(g), s, x);
    }
  }

  lemma AllStrong(g: Snap, c: set<Id>, x: Id, r: Id)
    requires x in g.h && x !in g.tmu && (g.h[x].Tab? ==> WeakMode(g.h, g.h[x].mt) == (false, false))
    requires Refers(g.h, g.h[x], r)
    ensures StrongRef(g, c, x, r)
  {
    var t := g.h[x];
    if t.Tab? && NodesRefer(t.nodes, r) {
      var i :| 0 <= i < |t.nodes| && NodeRefers(t.nodes[i], r);
      assert EntryStays(g.h, g.m, c, t.nodes[i], false, false);
    }
  }

  // ---- what is kept ------------------------------------------------------------------------------------------

  // A weak part of an entry that may be taken for gone between g and g'
  ghost predicate Lost(g: Snap, g': Snap, v: Value, iskey: bool) {
    && v.Ref? && !IsString(g.h, v.id)
    && (v.id !in StrongSet(g)
        || (!iskey && v.id in g.h && g.h[v.id].Udata? && (v.id in g'.m ==> g'.m[v.id].finalized)))
  }

  // An entry is what it was, or without a value and a key, or it was in a weak table and one of its parts was lost.
  ghost predicate NodeKept(g: Snap, g': Snap, n: Node, n': Node, weak: bool) {
    || n' == n || n' == CleanNode(n)
    || (weak && n.val != Nil && n' == RemoveEntry(n)
        && ((n.key.KeyOf? && Lost(g, g', n.key.v, true)) || Lost(g, g', n.val, false)))
  }

  ghost predicate ValueKept(g: Snap, g': Snap, v: Value, v': Value, wv: bool) {
    v' == v || (wv && v' == Nil && Lost(g, g', v, false))
  }

  ghost predicate TableKept(g: Snap, g': Snap, t: Obj, t': Obj)
    requires t.Tab?
  {
    var (wk, wv) := WeakMode(g.h, t.mt);
    && t'.Tab? && SameTable(t, t') && |t'.arr| == |t.arr| && |t'.nodes| == |t.nodes|
    && (forall i :: 0 <= i < |t.arr| ==> ValueKept(g, g', t.arr[i], t'.arr[i], wv))
    && (forall i :: 0 <= i < |t.nodes| ==> NodeKept(g, g', t.nodes[i], t'.nodes[i], wk || wv))
  }

  /** The contents of an object that is not a table stay, upvalues keep their values, and finalizers are called with new
      values on the stack. */
  ghost predicate ObjKept(g: Snap, g': Snap, x: Id)
    requires x in g.h
  {
    && x in g'.h
    && var t, t' := g.h[x], g'.h[x];
       if t.Tab? then TableKept(g, g', t, t')
       else if t.Thread? then t'.Thread? && t'.gt == t.gt && t.stack <= t'.stack
       else if t.UpOpen? || t.UpClosed? then (t'.UpOpen? || t'.UpClosed?) && UpvalValue(g'.h, x) == UpvalValue(g.h, x)
       else t' == t
  }

  /** A collection leaves a program what it can use. */
  ghost predicate Preserves(g: Snap, g': Snap) {
    && SameStart(g, g') && SameKinds(g, g') && StrongSet(g) <= StrongSet(g')
    && forall x :: x in StrongSet(g) ==> ObjKept(g, g', x)
  }

  lemma PreservesRefl(g: Snap)
    ensures Preserves(g, g)
  {
    hide Strong, Lost;
  }

  // ---- one stretch after another -----------------------------------------------------------------------------

  lemma MtStrong(g: Snap, x: Id)
    requires Alive(g) && x in StrongSet(g) && x in g.h && g.h[x].Tab? && g.h[x].mt.Some?
    ensures g.h[x].mt.value in StrongSet(g) && g.h[x].mt.value in g.h
  {
    hide Strong;
    StrongIsClosed(g);
    assert StrongRef(g, StrongSet(g), x, g.h[x].mt.value);
  }

  lemma KeptMode(g: Snap, g': Snap, mt: Option<Id>)
    requires mt.Some? ==> mt.value in g.h && ObjKept(g, g', mt.value)
    ensures WeakMode(g'.h, mt) == WeakMode(g.h, mt)
  {
    hide Lost;
  }

  lemma LostTrans(g: Snap, g1: Snap, g2: Snap, v: Value, iskey: bool)
    requires SameKinds(g, g1) && SameKinds(g1, g2) && StrongSet(g) <= StrongSet(g1)
    ensures Lost(g, g1, v, iskey) ==> Lost(g, g2, v, iskey)
    ensures Lost(g1, g2, v, iskey) && (v.Ref? ==> v.id in g1.h) ==> Lost(g, g2, v, iskey)
  {
    hide StrongSet;
  }

  lemma NodeKeptTrans(g: Snap, g1: Snap, g2: Snap, n: Node, n1: Node, n2: Node, weak: bool)
    requires SameKinds(g, g1) && SameKinds(g1, g2) && StrongSet(g) <= StrongSet(g1)
    requires NodeKept(g, g1, n, n1, weak) && NodeKept(g1, g2, n1, n2, weak)
    requires forall r :: NodeRefers(n1, r) ==> r in g1.h
    ensures NodeKept(g, g2, n, n2, weak)
  {
    hide Lost, SameKinds, StrongSet;
    LostTrans(g, g1, g2, n.val, false);
    if n.key.KeyOf? { LostTrans(g, g1, g2, n.key.v, true); }
    if n1.val != Nil {
      if n1.val.Ref? { assert NodeRefers(n1, n1.val.id); }
      if n1.key.KeyOf? && n1.key.v.Ref? { assert NodeRefers(n1, n1.key.v.id); }
    }
  }

  lemma TableKeptTrans(g: Snap, g1: Snap, g2: Snap, t: Obj, t1: Obj, t2: Obj)
    requires SameKinds(g, g1) && SameKinds(g1, g2) && StrongSet(g) <= StrongSet(g1)
    requires t.Tab? && TableKept(g, g1, t, t1) && TableKept(g1, g2, t1, t2)
    requires WeakMode(g1.h, t.mt) == WeakMode(g.h, t.mt) && forall r :: Refers(g1.h, t1, r) ==> r in g1.h
    ensures TableKept(g, g2, t, t2)
  {
    hide Lost, SameKinds, StrongSet, WeakMode, NodeKept;
    forall i | 0 <= i < |t.arr|
      ensures ValueKept(g, g2, t.arr[i], t2.arr[i], WeakMode(g.h, t.mt).1)
    {
      assert ValueKept(g, g1, t.arr[i], t1.arr[i], WeakMode(g.h, t.mt).1);
      assert ValueKept(g1, g2, t1.arr[i], t2.arr[i], WeakMode(g.h, t.mt).1);
      LostTrans(g, g1, g2, t.arr[i], false);
      if t1.arr[i].Ref? { assert HasRef(t1.arr, t1.arr[i].id); }
    }
    forall i | 0 <= i < |t.nodes|
      ensures NodeKept(g, g2, t.nodes[i], t2.nodes[i], WeakMode(g.h, t.mt).0 || WeakMode(g.h, t.mt).1)
    {
      assert forall r :: NodeRefers(t1.nodes[i], r) ==> NodesRefer(t1.nodes, r);
      NodeKeptTrans(g, g1, g2, t.nodes[i], t1.nodes[i], t2.nodes[i], WeakMode(g.h, t.mt).0 || WeakMode(g.h, t.mt).1);
    }
  }

  lemma AliveRefers(g: Snap, x: Id)
    requires Alive(g) && x in StrongSet(g)
    ensures x in g.h && forall r :: Refers(g.h, g.h[x], r) ==> r in g.h
  {
    hide Strong, Refers;
    StrongAlive(g);
  }

  lemma ObjKeptTrans(g: Snap, g1: Snap, g2: Snap, x: Id)
    requires Alive(g) && Alive(g1) && Preserves(g, g1) && Preserves(g1, g2) && x in StrongSet(g) && x in g.h
    ensures ObjKept(g, g2, x)
  {
    hide Alive, TableKept, StrongSet, SameKinds, UpvalValue;
    assert ObjKept(g, g1, x) && x in StrongSet(g1);
    assert ObjKept(g1, g2, x);
    var t := g.h[x];
    if t.Tab? {
      TableSame(g, g1, x);
      if t.mt.Some? { MtStrong(g, x); }
      KeptMode(g, g1, t.mt);
      AliveRefers(g1, x);
      TableKeptTrans(g, g1, g2, t, g1.h[x], g2.h[x]);
    }
  }

  lemma TableSame(g: Snap, g': Snap, x: Id)
    requires x in g.h && g.h[x].Tab? && ObjKept(g, g', x)
    ensures g'.h[x].Tab? && g'.h[x].mt == g.h[x].mt
  {
    hide NodeKept, ValueKept, WeakMode;
  }

  lemma PreservesTrans(g: Snap, g1: Snap, g2: Snap)
    requires Alive(g) && Alive(g1) && Preserves(g, g1) && Preserves(g1, g2)
    ensures Preserves(g, g2)
  {
    hide Alive, ObjKept, Strong;
    forall x | x in StrongSet(g)
      ensures ObjKept(g, g2, x)
    {
      ObjKeptTrans(g, g1, g2, x);
    }
  }

  // ---- steps that leave the heap as it is, but for keys without a value --------------------------------------

  // The references that make an object strong are still there, and those in tmudata are no more.
  lemma StrongGrows(g: Snap, g': Snap)
    requires Alive(g') && SameStart(g, g')
    requires forall x, r :: x in StrongSet(g') && StrongRef(g, StrongSet(g'), x, r) ==>
        StrongRef(g', StrongSet(g'), x, r)
    ensures StrongSet(g) <= StrongSet(g')
  {
    hide StrongRef, Alive, Strong;
    StrongIsClosed(g');
    StrongLeast(g, StrongSet(g'));
  }

  lemma CleansSelf(t: Obj, t': Obj)
    requires Cleans(t, t') && t.Tab?
    ensures t' == t.(nodes := t'.nodes) && |t'.nodes| == |t.nodes|
      && forall i :: 0 <= i < |t.nodes| ==>
           && (t'.nodes[i] == t.nodes[i] || t'.nodes[i] == CleanNode(t.nodes[i]))
           && (t.nodes[i].val != Nil ==> t'.nodes[i] == t.nodes[i])
  {
  }

  lemma CleanedStrong(g: Snap, g': Snap, c: set<Id>, x: Id, r: Id)
    requires CleanedHeap(g.h, g'.h) && g'.tmu == g.tmu && g'.m.Keys == g.m.Keys
      && forall y :: y in g.m ==> g'.m[y].finalized == g.m[y].finalized
    requires StrongRef(g, c, x, r)
    ensures StrongRef(g', c, x, r)
  {
    var t := g.h[x];
    assert Cleans(t, g'.h[x]);
    if t.Tab? {
      CleanedSameTables(g.h, g'.h);
      SameMode(g.h, g'.h, t.mt);
      CleansSelf(t, g'.h[x]);
      CleanedTable(g, g', c, t, g'.h[x], WeakMode(g.h, t.mt).0, WeakMode(g.h, t.mt).1, r);
    } else if t.UpOpen? && t.th in g.h {
      assert Cleans(g.h[t.th], g'.h[t.th]);
    }
  }

  lemma CleanedEntry(g: Snap, g': Snap, c: set<Id>, n: Node, wk: bool, wv: bool)
    requires CleanedHeap(g.h, g'.h) && g'.m.Keys == g.m.Keys
      && forall y :: y in g.m ==> g'.m[y].finalized == g.m[y].finalized
    requires EntryStays(g.h, g.m, c, n, wk, wv)
    ensures EntryStays(g'.h, g'.m, c, n, wk, wv)
  {
    hide Cleans;
    if n.val.Ref? && n.val.id in g.h { CleansKind(g.h[n.val.id], g'.h[n.val.id]); }
    if n.key.KeyOf? && n.key.v.Ref? && n.key.v.id in g.h { CleansKind(g.h[n.key.v.id], g'.h[n.key.v.id]); }
  }

  lemma CleansKind(t: Obj, t': Obj)
    requires Cleans(t, t')
    ensures (t'.Str? <==> t.Str?) && (t'.Udata? <==> t.Udata?)
  {
  }

  lemma CleanedTable(g: Snap, g': Snap, c: set<Id>, t: Obj, t': Obj, wk: bool, wv: bool, r: Id)
    requires CleanedHeap(g.h, g'.h) && g'.m.Keys == g.m.Keys
      && forall y :: y in g.m ==> g'.m[y].finalized == g.m[y].finalized
    requires TableStrong(g.h, g.m, c, t, wk, wv, r) && t'.Tab? && t' == t.(nodes := t'.nodes) && |t'.nodes| == |t.nodes|
    requires forall i :: 0 <= i < |t.nodes| && t.nodes[i].val != Nil ==> t'.nodes[i] == t.nodes[i]
    ensures TableStrong(g'.h, g'.m, c, t', wk, wv, r)
  {
    hide EntryStays, NodeRefers, CleanedHeap;
    if NodesStay(g.h, g.m, c, t.nodes, wk, wv, r) {
      var i :| 0 <= i < |t.nodes| && EntryStays(g.h, g.m, c, t.nodes[i], wk, wv) && NodeRefers(t.nodes[i], r);
      StaysFull(g.h, g.m, c, t.nodes[i], wk, wv);
      CleanedEntry(g, g', c, t.nodes[i], wk, wv);
    } else if r in g.h {
      CleanedKind(g.h, g'.h, r);
    }
  }

  lemma StaysFull(h: Heap, m: Marking, c: set<Id>, n: Node, wk: bool, wv: bool)
    requires EntryStays(h, m, c, n, wk, wv)
    ensures n.val != Nil
  {
  }

  lemma CleanedKind(h: Heap, h': Heap, r: Id)
    requires CleanedHeap(h, h') && r in h
    ensures r in h' && (h'[r].Str? <==> h[r].Str?) && (h'[r].Udata? <==> h[r].Udata?)
  {
    assert Cleans(h[r], h'[r]);
  }

  lemma CleanedKept(g: Snap, g': Snap, x: Id)
    requires CleanedHeap(g.h, g'.h) && x in g.h
    ensures ObjKept(g, g', x)
  {
    hide Lost;
    var t := g.h[x];
    assert Cleans(t, g'.h[x]);
    if t.Tab? { CleansSelf(t, g'.h[x]); }
    if t.UpOpen? && t.th in g.h { assert Cleans(g.h[t.th], g'.h[t.th]); }
  }

  /** Marking without the atomic step, and steps that do not change the heap */
  lemma CleanedPreserves(g: Snap, g': Snap)
    requires Alive(g') && g.m.Keys == g.h.Keys && CleanedHeap(g.h, g'.h) && SameStart(g, g') && g'.tmu == g.tmu
    requires g'.m.Keys == g.m.Keys && forall y :: y in g.m ==> g'.m[y].finalized == g.m[y].finalized
    ensures Preserves(g, g')
  {
    hide Alive, Strong, StrongRef, CleanedHeap, ObjKept;
    forall x, r | x in StrongSet(g') && StrongRef(g, StrongSet(g'), x, r)
      ensures StrongRef(g', StrongSet(g'), x, r)
    {
      CleanedStrong(g, g', StrongSet(g'), x, r);
    }
    StrongGrows(g, g');
    CleanedKeys(g.h, g'.h);
    forall x | x in g.h
      ensures ObjKept(g, g', x) && (g'.h[x].Str? <==> g.h[x].Str?) && (g'.h[x].Udata? <==> g.h[x].Udata?)
    {
      CleanedKept(g, g', x);
      CleanedKind(g.h, g'.h, x);
    }
  }

  lemma CleanedKeys(h: Heap, h': Heap)
    requires CleanedHeap(h, h')
    ensures h'.Keys == h.Keys
  {
  }

  // ---- the sweep -----------------------------------------------------------------------------------------------

  lemma SameValueRefers(h: Heap, h': Heap, x: Id, r: Id)
    requires x in h && x in h' && SameValue(h, h', x) && !h[x].Tab? && Refers(h, h[x], r)
    ensures !h'[x].Tab? && Refers(h', h'[x], r)
  {
  }

  lemma SweptMode(g: Snap, g': Snap, mt: Option<Id>)
    requires Sweeps(g, g') && (mt.Some? ==> mt.value in g.h && !Dead(g.m, g.cw, mt.value))
    ensures WeakMode(g'.h, mt) == WeakMode(g.h, mt)
  {
    if mt.Some? { assert SameValue(g.h, g'.h, mt.value); }
  }

  lemma SweptEntry(g: Snap, g': Snap, c: set<Id>, n: Node, wk: bool, wv: bool)
    requires Sweeps(g, g') && g.m.Keys == g.h.Keys && g'.m.Keys == g'.h.Keys
    requires forall r :: NodeRefers(n, r) ==> r in g.h && r in g'.h
    requires EntryStays(g.h, g.m, c, n, wk, wv)
    ensures EntryStays(g'.h, g'.m, c, n, wk, wv)
  {
    hide SameValue, SameStart, Dead;
    if n.val.Ref? { assert NodeRefers(n, n.val.id); }
    if n.key.KeyOf? && n.key.v.Ref? { assert NodeRefers(n, n.key.v.id); }
  }

  lemma SweptTable(g: Snap, g': Snap, c: set<Id>, t: Obj, wk: bool, wv: bool, r: Id)
    requires Sweeps(g, g') && g.m.Keys == g.h.Keys && g'.m.Keys == g'.h.Keys
    requires forall y :: Refers(g.h, t, y) ==> y in g.h && y in g'.h
    requires TableStrong(g.h, g.m, c, t, wk, wv, r)
    ensures TableStrong(g'.h, g'.m, c, t, wk, wv, r)
  {
    hide EntryStays, SameValue, SameStart, Dead;
    if NodesStay(g.h, g.m, c, t.nodes, wk, wv, r) {
      var i :| 0 <= i < |t.nodes| && EntryStays(g.h, g.m, c, t.nodes[i], wk, wv) && NodeRefers(t.nodes[i], r);
      assert forall y :: NodeRefers(t.nodes[i], y) ==> NodesRefer(t.nodes, y);
      SweptEntry(g, g', c, t.nodes[i], wk, wv);
    }
  }

  // What an object that is not dead refers to, before and after the sweep
  lemma SweptRefs(g: Snap, g': Snap, x: Id)
    requires Sweeps(g, g') && Alive(g) && x in g.h && !Dead(g.m, g.cw, x)
    ensures x in g'.h && SameValue(g.h, g'.h, x) && g'.tmu == g.tmu && g.m.Keys == g.h.Keys
    ensures forall r :: Refers(g.h, g.h[x], r) ==> r in g.h && !Dead(g.m, g.cw, r) && r in g'.h
  {
    hide Refers, SameValue;
    forall r | Refers(g.h, g.h[x], r)
      ensures r in g.h && !Dead(g.m, g.cw, r) && r in g'.h
    {
      LiveAt(g, x, r);
    }
  }

  lemma SweptStrong(g: Snap, g': Snap, c: set<Id>, x: Id, r: Id)
    requires Sweeps(g, g') && Alive(g) && Alive(g') && StrongRef(g, c, x, r) && !Dead(g.m, g.cw, x)
    ensures StrongRef(g', c, x, r)
  {
    hide Dead, TableStrong, Refers, WeakMode, Alive, Sweeps;
    SweptRefs(g, g', x);
    var t := g.h[x];
    if t.Tab? {
      MtRefers(g.h, t);
      SweptMode(g, g', t.mt);
      AliveKeys(g');
      SweptTable(g, g', c, t, WeakMode(g.h, t.mt).0, WeakMode(g.h, t.mt).1, r);
    } else {
      SameValueRefers(g.h, g'.h, x, r);
    }
  }

  lemma MtRefers(h: Heap, t: Obj)
    requires t.Tab?
    ensures t.mt.Some? ==> Refers(h, t, t.mt.value)
  {
  }

  lemma SweptKept(g: Snap, g': Snap, x: Id)
    requires Sweeps(g, g') && x in g.h && !Dead(g.m, g.cw, x)
    ensures ObjKept(g, g', x)
  {
    hide Lost;
    assert SameValue(g.h, g'.h, x);
  }

  /** The sweep */
  lemma SweepPreserves(g: Snap, g': Snap)
    requires Sweeps(g, g') && Alive(g) && Alive(g')
    ensures Preserves(g, g')
  {
    hide Strong, StrongRef, ObjKept, Live, Refers;
    var c := StrongSet(g') * NotDead(g);
    StrongIsClosed(g');
    SweptStart(g, g');
    forall x, r | x in c && StrongRef(g, c, x, r)
      ensures r in c
    {
      StrongRefers(g, c, x, r);
      LiveAt(g, x, r);
      SweptStrong(g, g', c, x, r);
      StrongMore(g', c, StrongSet(g'), x, r);
    }
    StrongLeast(g, c);
    forall x | x in StrongSet(g)
      ensures ObjKept(g, g', x)
    {
      SweptKept(g, g', x);
    }
  }

  lemma SweptStart(g: Snap, g': Snap)
    requires Sweeps(g, g')
    ensures ProgramRoots(g') == ProgramRoots(g) && SameKinds(g, g') && SameStart(g, g')
  {
  }

  lemma LiveAt(g: Snap, x: Id, r: Id)
    requires Alive(g) && x in NotDead(g) && Refers(g.h, g.h[x], r)
    ensures r in NotDead(g)
  {
    hide Refers;
  }

  // ---- finalizers ----------------------------------------------------------------------------------------------

  // The running thread has more on its stack.
  predicate StackGrows(h: Heap, h': Heap, th: Id) {
    && th in h && h[th].Thread? && h'.Keys == h.Keys && h'[th].Thread? && h'[th].gt == h[th].gt
    && h'[th].open == h[th].open && h[th].stack <= h'[th].stack && h' == h[th := h'[th]]
  }

  lemma GrownRefers(h: Heap, h': Heap, th: Id, x: Id, r: Id)
    requires StackGrows(h, h', th) && x in h && Refers(h, h[x], r)
    ensures x in h' && Refers(h', h'[x], r)
  {
    if x == th && HasRef(h[th].stack, r) {
      var i :| 0 <= i < |h[th].stack| && h[th].stack[i] == Ref(r);
      assert h'[th].stack[i] == Ref(r);
    }
  }

  lemma GrownStrong(g: Snap, g': Snap, th: Id, c: set<Id>, x: Id, r: Id)
    requires StackGrows(g.h, g'.h, th) && (forall u :: u in g'.tmu ==> u in g.tmu) && g'.m.Keys == g.m.Keys
      && forall y :: y in g.m ==> g'.m[y].finalized == g.m[y].finalized
    requires StrongRef(g, c, x, r)
    ensures StrongRef(g', c, x, r)
  {
    var t := g.h[x];
    if t.Tab? {
      assert WeakMode(g'.h, t.mt) == WeakMode(g.h, t.mt);
      GrownTable(g, g', th, c, t, WeakMode(g.h, t.mt).0, WeakMode(g.h, t.mt).1, r);
    } else {
      GrownRefers(g.h, g'.h, th, x, r);
    }
  }

  lemma GrownTable(g: Snap, g': Snap, th: Id, c: set<Id>, t: Obj, wk: bool, wv: bool, r: Id)
    requires StackGrows(g.h, g'.h, th) && g'.m.Keys == g.m.Keys
      && forall y :: y in g.m ==> g'.m[y].finalized == g.m[y].finalized
    requires TableStrong(g.h, g.m, c, t, wk, wv, r)
    ensures TableStrong(g'.h, g'.m, c, t, wk, wv, r)
  {
    if NodesStay(g.h, g.m, c, t.nodes, wk, wv, r) {
      var i :| 0 <= i < |t.nodes| && EntryStays(g.h, g.m, c, t.nodes[i], wk, wv) && NodeRefers(t.nodes[i], r);
      assert EntryStays(g'.h, g'.m, c, t.nodes[i], wk, wv);
    }
  }

  lemma GrownKept(g: Snap, g': Snap, th: Id, x: Id)
    requires StackGrows(g.h, g'.h, th) && UpvalHomes(g.h) && x in g.h
    ensures ObjKept(g, g', x)
  {
    hide Lost;
  }

  /** The call of a finalizer, which is given its userdata */
  lemma FinalizePreserves(g: Snap, g': Snap, th: Id)
    requires Alive(g') && UpvalHomes(g.h) && StackGrows(g.h, g'.h, th) && SameStart(g, g') && g.m.Keys == g.h.Keys
    requires (forall u :: u in g'.tmu ==> u in g.tmu) && g'.m.Keys == g.m.Keys
      && forall y :: y in g.m ==> g'.m[y].finalized == g.m[y].finalized
    ensures Preserves(g, g')
  {
    hide Alive, Strong, StrongRef, ObjKept, UpvalHomes;
    forall x, r | x in StrongSet(g') && StrongRef(g, StrongSet(g'), x, r)
      ensures StrongRef(g', StrongSet(g'), x, r)
    {
      GrownStrong(g, g', th, StrongSet(g'), x, r);
    }
    StrongGrows(g, g');
    forall x | x in g.h
      ensures ObjKept(g, g', x)
    {
      GrownKept(g, g', th, x);
    }
  }

  // ---- the atomic step -----------------------------------------------------------------------------------------

  // What is marked before userdata are separated, and the strings, which cleartable marks
  ghost function Kept(s: Snap): set<Id> {
    set x | x in s.h && (Nonwhite(s.m, x) || s.h[x].Str?)
  }

  // A marked object that is traversed has the bits of its mode.
  lemma SettledBits(s: Snap, x: Id)
    requires Settled(s) && x in s.h && s.h[x].Tab? && Nonwhite(s.m, x)
    ensures Traced(s.h, s.m, x)
    ensures KeysWeak(s.m[x]) ==> WeakMode(s.h, s.h[x].mt).0
    ensures ValuesWeak(s.m[x]) ==> WeakMode(s.h, s.h[x].mt).1
  {
    hide Upvalues, Placed, Colors, Live, Covers, RootsLive, NoDead, NonwhiteIn, Traced, WeakMode;
    TmuAreUdata(s);
    if s.m[x].color.Gray? {
      assert x in s.weak;
      assert ModeRight(s.h, s.m, x);
    }
  }

  lemma SettledTraced(s: Snap, x: Id)
    requires Settled(s) && x in s.h && Nonwhite(s.m, x) && x !in s.tmu
    ensures Traced(s.h, s.m, x)
  {
    hide Upvalues, Placed, Colors, Live, Covers, RootsLive, NoDead, NonwhiteIn, Lists, Modes;
  }

  lemma SettledRefs(s: Snap, x: Id, r: Id)
    requires Settled(s) && x in s.h && Refers(s.h, s.h[x], r)
    ensures r in s.h
  {
    hide Upvalues, Placed, Colors, Covers, RootsLive, Refers, Lists, Modes, Tri, NonwhiteIn, RootsMarked;
    LiveComplete(s.h, s.m, s.cw);
  }

  // What the traversal of a table has to mark, in terms of its mode
  lemma HeldEntry(s: Snap, x: Id, i: int, r: Id)
    requires Settled(s) && x in s.h && s.h[x].Tab? && Nonwhite(s.m, x) && 0 <= i < |s.h[x].nodes|
    requires var (wk, wv) := WeakMode(s.h, s.h[x].mt);
             NodeHolds(s.h[x].nodes[i], wk, wv, r)
    ensures Nonwhite(s.m, r)
  {
    hide Settled, WeakMode;
    SettledBits(s, x);
    assert NodeHolds(s.h[x].nodes[i], KeysWeak(s.m[x]), ValuesWeak(s.m[x]), r);
    assert Holds(s.h, s.h[x], KeysWeak(s.m[x]), ValuesWeak(s.m[x]), r);
  }

  lemma HeldRest(s: Snap, x: Id, r: Id)
    requires Settled(s) && x in s.h && s.h[x].Tab? && Nonwhite(s.m, x)
    requires s.h[x].mt == Some(r) || (!WeakMode(s.h, s.h[x].mt).1 && HasRef(s.h[x].arr, r))
    ensures Nonwhite(s.m, r)
  {
    hide Settled, WeakMode;
    SettledBits(s, x);
    assert Holds(s.h, s.h[x], KeysWeak(s.m[x]), ValuesWeak(s.m[x]), r);
  }

  // The table t as it was when the atomic step began, and as it is in the settled state
  lemma TraversedTable(g: Snap, s: Snap, x: Id)
    requires Traverses(g, s) && x in g.h
    ensures x in s.h && Cleans(g.h[x], s.h[x]) && (s.h[x].Tab? <==> g.h[x].Tab?)
    ensures g.h[x].Tab? ==> WeakMode(s.h, s.h[x].mt) == WeakMode(g.h, g.h[x].mt)
  {
    hide Cleans;
    CleanedSameTables(g.h, s.h);
    assert SameTable(g.h[x], s.h[x]) && Cleans(g.h[x], s.h[x]);
    if g.h[x].Tab? { SameMode(g.h, s.h, g.h[x].mt); }
  }

  // An entry that stays has only parts that are kept.
  lemma EntryHeld(g: Snap, s: Snap, c: set<Id>, x: Id, i: int, r: Id)
    requires Traverses(g, s) && Settled(s) && x in g.h && g.h[x].Tab? && Nonwhite(s.m, x) && 0 <= i < |g.h[x].nodes|
    requires c <= Kept(s) && NodeRefers(g.h[x].nodes[i], r) && r in s.h
    requires var (wk, wv) := WeakMode(g.h, g.h[x].mt);
             EntryStays(g.h, g.m, c, g.h[x].nodes[i], wk, wv)
    ensures r in Kept(s)
  {
    hide Settled, WeakMode, FinalizedUdata;
    TraversedTable(g, s, x);
    CleansSelf(g.h[x], s.h[x]);
    var (wk, wv) := WeakMode(g.h, g.h[x].mt);
    var n := g.h[x].nodes[i];
    assert s.h[x].nodes[i] == n;
    if NodeHolds(n, wk, wv, r) {
      HeldEntry(s, x, i, r);
    } else {
      assert Stays(g.h, c, Ref(r));
      if r in g.h { TraversedString(g, s, r); }
    }
  }

  lemma TraversedString(g: Snap, s: Snap, r: Id)
    requires Traverses(g, s) && r in g.h
    ensures r in s.h && (s.h[r].Str? <==> g.h[r].Str?) && (s.h[r].Udata? <==> g.h[r].Udata?)
  {
    CleanedKind(g.h, s.h, r);
  }

  lemma TableHeldKept(g: Snap, s: Snap, c: set<Id>, x: Id, r: Id)
    requires Traverses(g, s) && Settled(s) && c <= Kept(s) && x in g.h && g.h[x].Tab? && Nonwhite(s.m, x) && r in s.h
    requires StrongRef(g, c, x, r)
    ensures r in Kept(s)
  {
    hide Settled, WeakMode, EntryStays;
    TraversedTable(g, s, x);
    CleansSelf(g.h[x], s.h[x]);
    var t := g.h[x];
    var (wk, wv) := WeakMode(g.h, t.mt);
    if NodesStay(g.h, g.m, c, t.nodes, wk, wv, r) {
      var i :| 0 <= i < |t.nodes| && EntryStays(g.h, g.m, c, t.nodes[i], wk, wv) && NodeRefers(t.nodes[i], r);
      EntryHeld(g, s, c, x, i, r);
    } else if wv && t.mt != Some(r) {
      TraversedString(g, s, r);
    } else {
      HeldRest(s, x, r);
    }
  }

  lemma TraversedRefers(g: Snap, s: Snap, x: Id, r: Id)
    requires Traverses(g, s) && x in g.h && !g.h[x].Tab?
    ensures x in s.h && !s.h[x].Tab? && (Refers(s.h, s.h[x], r) <==> Refers(g.h, g.h[x], r))
  {
    assert Cleans(g.h[x], s.h[x]);
    if g.h[x].UpOpen? && g.h[x].th in g.h { assert Cleans(g.h[g.h[x].th], s.h[g.h[x].th]); }
  }

  lemma StringHasNone(g: Snap, c: set<Id>, x: Id, r: Id)
    requires StrongRef(g, c, x, r)
    ensures x in g.h && !g.h[x].Str?
  {
  }

  // What a kept object refers to strongly is kept.
  lemma KeptNext(g: Snap, s: Snap, c: set<Id>, x: Id, r: Id)
    requires Traverses(g, s) && Settled(s) && c <= Kept(s) && x in Kept(s) && r in s.h && StrongRef(g, c, x, r)
    ensures r in Kept(s)
  {
    hide Settled, TableStrong, Refers, Holds;
    StringHasNone(g, c, x, r);
    TraversedString(g, s, x);
    if g.h[x].Tab? {
      TableHeldKept(g, s, c, x, r);
    } else {
      TraversedRefers(g, s, x, r);
      SettledTraced(s, x);
      HoldsPlain(s.h, s.h[x], KeysWeak(s.m[x]), ValuesWeak(s.m[x]), r);
    }
  }

  lemma HoldsPlain(h: Heap, o: Obj, wk: bool, wv: bool, r: Id)
    requires !o.Tab? && Refers(h, o, r)
    ensures Holds(h, o, wk, wv, r)
  {
  }

  lemma SettledRoots(g: Snap, s: Snap)
    requires Traverses(g, s) && Settled(s)
    ensures ProgramRoots(g) <= Kept(s)
  {
    hide Upvalues, Placed, Colors, Live, Covers, Lists, Modes, Tri, NonwhiteIn, CleanedHeap;
    assert ProgramRoots(g) <= Roots(s);
  }

  lemma TraversedExists(g: Snap, s: Snap, x: Id, r: Id)
    requires Traverses(g, s) && Settled(s) && x in g.h && Refers(g.h, g.h[x], r)
    ensures r in s.h
  {
    hide Settled, Refers;
    CleanedHeapRefers(g.h, s.h, x, r);
    SettledRefs(s, x, r);
  }

  lemma CleanedHeapRefers(h: Heap, h': Heap, x: Id, r: Id)
    requires CleanedHeap(h, h') && x in h && Refers(h, h[x], r)
    ensures x in h' && Refers(h', h'[x], r)
  {
    assert Cleans(h[x], h'[x]);
    if h[x].Tab? { CleanRefers(h[x].nodes, r); }
    if h[x].UpOpen? && h[x].th in h { assert Cleans(h[h[x].th], h'[h[x].th]); }
  }

  /** Before userdata are separated all that is strong has been marked, but for strings. */
  lemma StrongMarked(g: Snap, s: Snap)
    requires Traverses(g, s) && Settled(s)
    ensures StrongSet(g) <= Kept(s)
  {
    hide Settled, StrongRef, Refers, Strong, Traverses;
    var c := Kept(s);
    SettledRoots(g, s);
    forall x, r | x in c && StrongRef(g, c, x, r)
      ensures r in c
    {
      StrongRefers(g, c, x, r);
      TraversedExists(g, s, x, r);
      KeptNext(g, s, c, x, r);
    }
    StrongLeast(g, c);
  }

  // ---- what cleartable leaves ----------------------------------------------------------------------------------

  lemma CollectedMode(g: Snap, g': Snap, x: Id)
    requires Collected(g.h, g') && x in g.h && g.h[x].Tab?
    ensures x in g'.h && g'.h[x].Tab? && g'.h[x].mt == g.h[x].mt
    ensures WeakMode(g'.h, g'.h[x].mt) == WeakMode(g.h, g.h[x].mt)
    ensures x in g'.weak ==> ModeRight(g'.h, g'.m, x)
  {
    hide ObjCollected, ModeRight, WeakMode;
    assert SameTable(g.h[x], g'.h[x]);
    SameMode(g.h, g'.h, g.h[x].mt);
  }

  lemma ClearedShape(h: Heap, m: Marking, t: Obj, c: Obj, wv: bool)
    requires t.Tab? && Cleans(t, c)
    ensures var t' := ClearedTable(h, m, c, wv);
            && t'.Tab? && SameTable(t, t') && |t'.arr| == |t.arr| && |t'.nodes| == |t.nodes|
            && (forall i :: 0 <= i < |t.arr| ==> t'.arr[i] == if wv then ClearedValue(h, m, t.arr[i]) else t.arr[i])
            && (forall i :: 0 <= i < |t.nodes| ==> t'.nodes[i] == ClearedNode(h, m, c.nodes[i]))
  {
    hide IsCleared, EntryCleared;
  }

  // The entries of a table after the atomic step
  lemma CollectedTable(g: Snap, g': Snap, x: Id)
    requires Collected(g.h, g') && x in g.h && g.h[x].Tab? && g'.m.Keys == g.h.Keys
    ensures x in g'.h && g'.h[x].Tab? && SameTable(g.h[x], g'.h[x])
    ensures |g'.h[x].arr| == |g.h[x].arr| && |g'.h[x].nodes| == |g.h[x].nodes|
    ensures forall i :: 0 <= i < |g.h[x].arr| ==> ValueCollected(g', x, g.h[x].arr[i], g'.h[x].arr[i])
    ensures forall i :: 0 <= i < |g.h[x].nodes| ==> NodeCollected(g', x, g.h[x].nodes[i], g'.h[x].nodes[i])
  {
    hide IsCleared, EntryCleared, ClearedTable, Cleans, Modes;
    assert ObjCollected(g', x, g.h[x], g'.h[x]);
    var t := g.h[x];
    if x in g'.weak {
      var c :| Cleans(t, c) && g'.h[x] == ClearedTable(g'.h, g'.m, c, g'.m[x].vweak);
      CleansSelf(t, c);
      ClearedShape(g'.h, g'.m, t, c, g'.m[x].vweak);
      forall i | 0 <= i < |t.nodes|
        ensures NodeCollected(g', x, t.nodes[i], g'.h[x].nodes[i])
      {
        NilNotCleared(g'.h, g'.m, c.nodes[i]);
      }
    } else {
      CleansSelf(t, g'.h[x]);
    }
  }

  predicate ValueCollected(g': Snap, x: Id, v: Value, v': Value) {
    v' == if x in g'.weak && x in g'.m && g'.m[x].vweak then ClearedValue(g'.h, g'.m, v) else v
  }

  predicate NodeCollected(g': Snap, x: Id, n: Node, n': Node) {
    if n.val == Nil then n' == n || n' == CleanNode(n)
    else n' == if x in g'.weak && EntryCleared(g'.h, g'.m, n) then RemoveEntry(n) else n
  }

  lemma NilNotCleared(h: Heap, m: Marking, n: Node)
    ensures n.val == Nil ==> !EntryCleared(h, m, n)
  {
  }

  // What a program can use is not cleared.
  lemma KeptNotCleared(g: Snap, s: Snap, g': Snap, v: Value, iskey: bool)
    requires Traverses(g, s) && Onward(s, g') && SameTables(g.h, g'.h) && (v.Ref? ==> v.id in Kept(s) && v.id in g.h)
    requires iskey || !FinalizedUdata(g.h, g.m, v)
    requires g.m.Keys == g.h.Keys
    ensures !IsCleared(g'.h, g'.m, v, iskey) && (iskey || !FinalizedUdata(g'.h, g'.m, v))
  {
    hide CleanedHeap;
    if v.Ref? {
      TraversedString(g, s, v.id);
      assert SameTable(g.h[v.id], g'.h[v.id]);
    }
  }

  lemma EntryNotCleared(g: Snap, s: Snap, g': Snap, c: set<Id>, x: Id, i: int)
    requires Traverses(g, s) && Settled(s) && Onward(s, g') && Collected(g.h, g') && c <= Kept(s)
    requires Alive(g) && x in g.h && g.h[x].Tab? && Nonwhite(s.m, x) && 0 <= i < |g.h[x].nodes|
    requires var (wk, wv) := WeakMode(g.h, g.h[x].mt);
             (wk || wv) && EntryStays(g.h, g.m, c, g.h[x].nodes[i], wk, wv)
    ensures !EntryCleared(g'.h, g'.m, g.h[x].nodes[i]) && !FinalizedUdata(g'.h, g'.m, g.h[x].nodes[i].val)
  {
    hide Settled, WeakMode, IsCleared, FinalizedUdata, Traverses, Onward, ObjCollected, Modes, Kept, Alive;
    var n := g.h[x].nodes[i];
    if n.val.Ref? {
      NodeExists(g, s, x, i, n.val.id);
      EntryHeld(g, s, c, x, i, n.val.id);
    }
    AliveKeys(g);
    KeptNotCleared(g, s, g', n.val, false);
    if n.key.KeyOf? {
      if n.key.v.Ref? {
        NodeExists(g, s, x, i, n.key.v.id);
        EntryHeld(g, s, c, x, i, n.key.v.id);
      }
      KeptNotCleared(g, s, g', n.key.v, true);
    }
  }

  lemma AliveKeys(g: Snap)
    requires Alive(g)
    ensures g.m.Keys == g.h.Keys
  {
  }

  lemma NodeExists(g: Snap, s: Snap, x: Id, i: int, r: Id)
    requires Traverses(g, s) && Settled(s) && x in g.h && g.h[x].Tab? && 0 <= i < |g.h[x].nodes|
    requires NodeRefers(g.h[x].nodes[i], r)
    ensures r in s.h && r in g.h
  {
    hide Settled;
    assert NodesRefer(g.h[x].nodes, r);
    TraversedExists(g, s, x, r);
  }

  lemma CollectedKind(g: Snap, g': Snap, r: Id)
    requires Collected(g.h, g') && r in g.h
    ensures r in g'.h && (g'.h[r].Str? <==> g.h[r].Str?) && (g'.h[r].Udata? <==> g.h[r].Udata?)
  {
    hide ObjCollected;
    assert SameTable(g.h[r], g'.h[r]);
  }

  // An entry that stays is still there.
  lemma CollectedEntry(g: Snap, s: Snap, g': Snap, c: set<Id>, x: Id, i: int)
    requires Traverses(g, s) && Settled(s) && Onward(s, g') && Collected(g.h, g') && c <= Kept(s)
    requires Alive(g) && x in g.h && g.h[x].Tab? && Nonwhite(s.m, x) && 0 <= i < |g.h[x].nodes| && g'.m.Keys == g.h.Keys
    requires EntryStays(g.h, g.m, c, g.h[x].nodes[i], WeakMode(g.h, g.h[x].mt).0, WeakMode(g.h, g.h[x].mt).1)
    ensures x in g'.h && g'.h[x].Tab? && i < |g'.h[x].nodes| && g'.h[x].nodes[i] == g.h[x].nodes[i]
    ensures EntryStays(g'.h, g'.m, c, g.h[x].nodes[i], WeakMode(g.h, g.h[x].mt).0, WeakMode(g.h, g.h[x].mt).1)
  {
    hide Settled, WeakMode, Traverses, Onward, Collected, Kept, Alive, IsCleared, EntryCleared, FinalizedUdata;
    CollectedTable(g, g', x);
    CollectedMode(g, g', x);
    var (wk, wv) := WeakMode(g.h, g.h[x].mt);
    var n := g.h[x].nodes[i];
    assert NodeCollected(g', x, n, g'.h[x].nodes[i]);
    if wk || wv {
      EntryNotCleared(g, s, g', c, x, i);
      StillStays(g, g', c, n);
    }
  }

  lemma StillStays(g: Snap, g': Snap, c: set<Id>, n: Node)
    requires Collected(g.h, g')
    ensures Stays(g.h, c, n.val) ==> Stays(g'.h, c, n.val)
    ensures n.key.KeyOf? && Stays(g.h, c, n.key.v) ==> Stays(g'.h, c, n.key.v)
  {
    hide Collected;
    if n.val.Ref? && n.val.id in g.h { CollectedKind(g, g', n.val.id); }
    if n.key.KeyOf? && n.key.v.Ref? && n.key.v.id in g.h { CollectedKind(g, g', n.key.v.id); }
  }

  lemma CollectedRest(g: Snap, g': Snap, x: Id, r: Id)
    requires Collected(g.h, g') && x in g.h && g.h[x].Tab? && g'.m.Keys == g.h.Keys && HasRef(g.h[x].arr, r)
    requires WeakMode(g.h, g.h[x].mt).1 ==> IsString(g.h, r)
    ensures x in g'.h && g'.h[x].Tab? && HasRef(g'.h[x].arr, r)
    ensures WeakMode(g.h, g.h[x].mt).1 ==> IsString(g'.h, r)
  {
    hide WeakMode, Collected;
    CollectedTable(g, g', x);
    CollectedMode(g, g', x);
    if r in g.h { CollectedKind(g, g', r); }
    var i :| 0 <= i < |g.h[x].arr| && g.h[x].arr[i] == Ref(r);
    assert ValueCollected(g', x, g.h[x].arr[i], g'.h[x].arr[i]);
    assert g'.h[x].arr[i] == Ref(r);
  }

  lemma CollectedStrongTable(g: Snap, s: Snap, g': Snap, c: set<Id>, x: Id, r: Id)
    requires Traverses(g, s) && Settled(s) && Onward(s, g') && Collected(g.h, g') && c <= Kept(s)
    requires Alive(g) && x in g.h && g.h[x].Tab? && Nonwhite(s.m, x) && g'.m.Keys == g.h.Keys
    requires TableStrong(g.h, g.m, c, g.h[x], WeakMode(g.h, g.h[x].mt).0, WeakMode(g.h, g.h[x].mt).1, r)
    ensures x in g'.h && g'.h[x].Tab?
    ensures TableStrong(g'.h, g'.m, c, g'.h[x], WeakMode(g.h, g.h[x].mt).0, WeakMode(g.h, g.h[x].mt).1, r)
  {
    hide Settled, WeakMode, Traverses, Onward, Collected, Kept, Alive, EntryStays, NodeRefers;
    CollectedMode(g, g', x);
    var t := g.h[x];
    var (wk, wv) := WeakMode(g.h, t.mt);
    if NodesStay(g.h, g.m, c, t.nodes, wk, wv, r) {
      var i :| 0 <= i < |t.nodes| && EntryStays(g.h, g.m, c, t.nodes[i], wk, wv) && NodeRefers(t.nodes[i], r);
      CollectedEntry(g, s, g', c, x, i);
    } else if t.mt != Some(r) {
      CollectedRest(g, g', x, r);
    }
  }

  lemma CollectedRefers(g: Snap, g': Snap, x: Id, r: Id)
    requires Collected(g.h, g') && x in g.h && !g.h[x].Tab?
    ensures x in g'.h && g'.h[x] == g.h[x] && (Refers(g'.h, g'.h[x], r) <==> Refers(g.h, g.h[x], r))
    ensures g.h[x].UpOpen? || g.h[x].UpClosed? ==> UpvalValue(g'.h, x) == UpvalValue(g.h, x)
  {
    hide ObjCollected, Modes;
    assert SameTable(g.h[x], g'.h[x]);
    if g.h[x].UpOpen? && g.h[x].th in g.h { assert SameTable(g.h[g.h[x].th], g'.h[g.h[x].th]); }
  }

  // A kept object is not among those that are given to their finalizers.
  lemma KeptNotDying(g: Snap, s: Snap, g': Snap, x: Id)
    requires Traverses(g, s) && Onward(s, g') && Alive(g') && x in Kept(s) && x !in g.tmu && x in g.h
    requires Collected(g.h, g')
    ensures x !in g'.tmu
  {
    hide CleanedHeap, Live, Collected;
    CollectedKind(g, g', x);
    TraversedString(g, s, x);
  }

  lemma CollectedStrong(g: Snap, s: Snap, g': Snap, c: set<Id>, x: Id, r: Id)
    requires Traverses(g, s) && Settled(s) && Onward(s, g') && Collected(g.h, g') && c <= Kept(s)
    requires Alive(g) && Alive(g') && x in c && g'.m.Keys == g.h.Keys && StrongRef(g, c, x, r)
    ensures StrongRef(g', c, x, r)
  {
    hide Settled, WeakMode, Traverses, Onward, Collected, Alive, TableStrong, Refers;
    KeptNotDying(g, s, g', x);
    StringHasNone(g, c, x, r);
    TraversedString(g, s, x);
    if g.h[x].Tab? {
      CollectedMode(g, g', x);
      CollectedStrongTable(g, s, g', c, x, r);
    } else {
      CollectedRefers(g, g', x, r);
    }
  }

  lemma ClearedIsLost(g: Snap, s: Snap, g': Snap, v: Value, iskey: bool)
    requires Onward(s, g') && Collected(g.h, g') && StrongSet(g) <= Kept(s) && s.h.Keys == g.h.Keys
    requires Traverses(g, s) && IsCleared(g'.h, g'.m, v, iskey)
    ensures Lost(g, g', v, iskey)
  {
    hide Strong, Collected, CleanedHeap;
    CollectedKeys(g, g');
    CollectedKind(g, g', v.id);
    TraversedString(g, s, v.id);
  }

  lemma CollectedKeys(g: Snap, g': Snap)
    requires Collected(g.h, g')
    ensures g'.h.Keys == g.h.Keys
  {
    hide ObjCollected;
  }

  lemma CollectedKept(g: Snap, s: Snap, g': Snap, x: Id)
    requires Traverses(g, s) && Onward(s, g') && Collected(g.h, g') && StrongSet(g) <= Kept(s) && x in g.h
      && g'.m.Keys == g.h.Keys && s.h.Keys == g.h.Keys
    ensures ObjKept(g, g', x)
  {
    hide Lost, StrongSet, Traverses, Onward, Collected, WeakMode, IsCleared;
    if g.h[x].Tab? { CollectedTableKept(g, s, g', x); } else { CollectedRefers(g, g', x, x); }
  }

  lemma CollectedTableKept(g: Snap, s: Snap, g': Snap, x: Id)
    requires Traverses(g, s) && Onward(s, g') && Collected(g.h, g') && StrongSet(g) <= Kept(s) && x in g.h
      && g'.m.Keys == g.h.Keys && s.h.Keys == g.h.Keys && g.h[x].Tab?
    ensures x in g'.h && TableKept(g, g', g.h[x], g'.h[x])
  {
    hide Lost, StrongSet, Traverses, Onward, Collected, WeakMode, IsCleared, Kept;
    CollectedTable(g, g', x);
    CollectedMode(g, g', x);
    var t := g.h[x];
    var (wk, wv) := WeakMode(g.h, t.mt);
    forall i | 0 <= i < |t.arr|
      ensures ValueKept(g, g', t.arr[i], g'.h[x].arr[i], wv)
    {
      assert ValueCollected(g', x, t.arr[i], g'.h[x].arr[i]);
      if IsCleared(g'.h, g'.m, t.arr[i], false) { ClearedIsLost(g, s, g', t.arr[i], false); }
    }
    forall i | 0 <= i < |t.nodes|
      ensures NodeKept(g, g', t.nodes[i], g'.h[x].nodes[i], wk || wv)
    {
      var n := t.nodes[i];
      assert NodeCollected(g', x, n, g'.h[x].nodes[i]);
      if IsCleared(g'.h, g'.m, n.val, false) { ClearedIsLost(g, s, g', n.val, false); }
      if n.key.KeyOf? && IsCleared(g'.h, g'.m, n.key.v, true) { ClearedIsLost(g, s, g', n.key.v, true); }
    }
  }

  /** The atomic step */
  lemma AtomicPreserves(g: Snap, s: Snap, g': Snap)
    requires Alive(g) && Alive(g') && Traverses(g, s) && Settled(s) && Onward(s, g') && Collected(g.h, g')
    ensures Preserves(g, g')
  {
    hide Settled, Strong, StrongRef, ObjKept, Collected, Refers, CleanedHeap, Live;
    StrongMarked(g, s);
    CollectedKeys(g, g');
    CleanedKeys(g.h, s.h);
    var c := StrongSet(g') * Kept(s);
    SettledRoots(g, s);
    StrongIsClosed(g');
    forall x, r | x in c && StrongRef(g, c, x, r)
      ensures r in c
    {
      StrongRefers(g, c, x, r);
      TraversedExists(g, s, x, r);
      KeptNext(g, s, c, x, r);
      CollectedStrong(g, s, g', c, x, r);
      StrongMore(g', c, StrongSet(g'), x, r);
    }
    StrongLeast(g, c);
    forall x | x in g.h
      ensures ObjKept(g, g', x) && (g'.h[x].Str? <==> g.h[x].Str?) && (g'.h[x].Udata? <==> g.h[x].Udata?)
    {
      CollectedKept(g, s, g', x);
      CollectedKind(g, g', x);
    }
  }

  // ---- the steps of a collection ---------------------------------------------------------------------------------

  lemma ValidAlive(g: Snap)
    requires Valid(g)
    ensures Alive(g) && UpvalHomes(g.h)
  {
    hide Placed, Colors, Live, Covers, RootsLive, PhaseOk;
    CommonAlive(g);
  }

  // Two values are pushed onto the stack of a thread.
  function CallPushed(h: Heap, th: Id, v: Value, w: Value): Heap
    requires th in h && h[th].Thread?
  {
    h[th := h[th].(stack := h[th].stack + [v, w])]
  }

  // GCTM calls the finalizer of the first userdata that waits, if it still has one.
  function FinalizerHeap(g: Snap): Heap {
    if g.tmu != [] && g.tmu[0] in g.h && g.h[g.tmu[0]].Udata? && g.run in g.h && g.h[g.run].Thread?
      && WantsGC(g.h, g.h[g.tmu[0]].mt)
    then CallPushed(g.h, g.run, Finalizer(g.h, g.h[g.tmu[0]].mt), Ref(g.tmu[0]))
    else g.h
  }

  // The state s, in which all is marked that a program can use, comes before the atomic step ends in g'.
  ghost predicate Settles(g: Snap, g': Snap) {
    && Collected(g.h, g') && g'.m.Keys == g'.h.Keys
    && (forall x :: x in g'.h ==> (Dead(g'.m, g'.cw, x) <==> !Nonwhite(g'.m, x)))
    && exists s :: Traverses(g, s) && Settled(s) && Onward(s, g')
  }

  /** What a step of a collection leaves of the heap */
  ghost predicate StepKeeps(g: Snap, g': Snap) {
    match g.phase
    case GCSpause => g'.h == g.h
    case GCSpropagate =>
      if g.gray != [] then Traverses(g, g') && g'.phase == GCSpropagate
      else Settles(g, g') && g'.phase == GCSsweepstring
    case GCSsweepstring => Sweeps(g, g') && g'.phase != GCSpropagate
    case GCSsweep => Sweeps(g, g') && g'.phase != GCSpropagate
    case GCSfinalize => g'.h == FinalizerHeap(g) && (g'.phase == GCSfinalize || g'.phase == GCSpause)
  }

  // Marking, and steps that do not change the heap
  lemma MarkPreserves(g: Snap, g': Snap)
    requires Valid(g) && Valid(g') && CleanedHeap(g.h, g'.h) && SameStart(g, g') && g'.tmu == g.tmu
    requires g'.m.Keys == g.m.Keys && forall y :: y in g.m ==> g'.m[y].finalized == g.m[y].finalized
    ensures Preserves(g, g')
  {
    hide Valid, CleanedHeap, Preserves;
    ValidAlive(g);
    ValidAlive(g');
    AliveKeys(g);
    CleanedPreserves(g, g');
  }

  lemma StepSweepPreserves(g: Snap, g': Snap)
    requires Valid(g) && Valid(g') && Sweeps(g, g')
    ensures Preserves(g, g')
  {
    hide Valid, Preserves, Alive, Sweeps;
    ValidAlive(g);
    ValidAlive(g');
    SweepPreserves(g, g');
  }

  lemma StepAtomicPreserves(g: Snap, s: Snap, g': Snap)
    requires Valid(g) && Valid(g') && Traverses(g, s) && Settled(s) && Onward(s, g') && Collected(g.h, g')
    ensures Preserves(g, g')
  {
    hide Valid, Preserves, Alive, Traverses, Settled, Onward, Collected;
    ValidAlive(g);
    ValidAlive(g');
    AtomicPreserves(g, s, g');
  }

  lemma StepFinalizePreserves(g: Snap, g': Snap)
    requires Valid(g) && Valid(g') && g.tmu != [] && g'.tmu == g.tmu[1..] && SameStart(g, g')
    requires g'.h == FinalizerHeap(g)
    requires g'.m == g.m[g.tmu[0] := g'.m[g.tmu[0]]] && g.tmu[0] in g.m && g.tmu[0] in g'.m
      && g'.m[g.tmu[0]].finalized == g.m[g.tmu[0]].finalized
    ensures Preserves(g, g')
  {
    hide Valid, Preserves, Alive, UpvalHomes, FinalizerHeap, StackGrows;
    ValidAlive(g);
    ValidAlive(g');
    RunIsThread(g);
    FinalizerGrows(g);
    assert forall u :: u in g.tmu[1..] ==> u in g.tmu;
    FinalizePreserves(g, g', g.run);
  }

  lemma NoFinalizer(g: Snap)
    requires g.tmu == []
    ensures FinalizerHeap(g) == g.h
  {
  }

  lemma FinalizerKeys(g: Snap)
    ensures FinalizerHeap(g).Keys == g.h.Keys
  {
    hide WantsGC, Finalizer;
  }

  lemma FinalizerGrows(g: Snap)
    requires g.run in g.h && g.h[g.run].Thread?
    ensures StackGrows(g.h, FinalizerHeap(g), g.run)
  {
    hide WantsGC, Finalizer;
  }

  lemma RunIsThread(g: Snap)
    requires Valid(g)
    ensures g.run in g.h && g.h[g.run].Thread? && g.m.Keys == g.h.Keys
  {
    hide Placed, Colors, Live, Covers, Upvalues, PhaseOk;
  }

  lemma DroppedPreserves(g: Snap)
    requires Valid(g) && (g.phase == GCSpause || g.phase == GCSpropagate)
    ensures Valid(Dropped(g)) && Preserves(g, Dropped(g))
  {
    hide Valid, Preserves, CleanedHeap;
    DroppedValid(g);
    CleanedHeapRefl(g.h);
    MarkPreserves(g, Dropped(g));
  }

  // One step after another
  lemma StepsPreserve(g: Snap, g1: Snap, g2: Snap)
    requires Valid(g) && Valid(g1) && Preserves(g, g1) && Preserves(g1, g2)
    ensures Preserves(g, g2)
  {
    hide Valid, Preserves, Alive;
    ValidAlive(g);
    ValidAlive(g1);
    PreservesTrans(g, g1, g2);
  }

  // ---- what a collection does not keep -----------------------------------------------------------------------------

  ghost predicate NeedClosed(g: Snap, c: set<Id>) {
    Starts(g) <= c && MarkClosed(g.h, c)
  }

  /** The least set that a cycle has to mark: through weak references nothing is needed, and no userdata because of a
      finalizer that it does not have. */
  ghost predicate Need(g: Snap, x: Id) {
    forall c: set<Id> :: NeedClosed(g, c) ==> x in c
  }

  ghost function Needed(g: Snap): set<Id> {
    set x | x in g.h && Need(g, x)
  }

  lemma NeededIsClosed(g: Snap)
    requires Complete(g.h) && forall r :: r in Roots(g) ==> r in g.h
    ensures NeedClosed(g, Needed(g))
  {
    hide Held, Refers, WantsGC;
    forall x, r | x in g.h && x in Needed(g) && Held(g.h, x, r)
      ensures r in Needed(g)
    {
      HeldRefers(g.h, x, r);
      forall c: set<Id> | NeedClosed(g, c)
        ensures r in c
      {
        assert Need(g, x);
      }
    }
  }

  lemma NeededReady(g: Snap)
    requires Valid(g) && (g.phase == GCSpause || g.phase == GCSfinalize)
    ensures MarkClosed(g.h, Needed(g)) && Starts(g) <= Needed(g)
  {
    hide Upvalues, Placed, Colors, Covers, Complete, Need;
    IdleComplete(g);
    NeededIsClosed(g);
  }

  // All objects together are a bound.
  lemma AllReady(g: Snap)
    requires Valid(g) && (g.phase == GCSpause || g.phase == GCSfinalize || g.phase == GCSpropagate)
    ensures MarkClosed(g.h, g.h.Keys) && Starts(g) <= g.h.Keys
    ensures g.phase == GCSpropagate ==> Bounds(g, g.h.Keys)
  {
    hide Upvalues, Placed, Colors, Covers, Refers, Held, Tri, Lists, WantsGC;
    forall x, r | x in g.h && Held(g.h, x, r)
      ensures r in g.h
    {
      HeldRefers(g.h, x, r);
      assert !Dead(g.m, g.cw, x);
    }
  }

  lemma FinalizeSparing(g: Snap, g': Snap, b: set<Id>)
    requires Valid(g) && g.phase == GCSfinalize && g'.phase != GCSpropagate && Preserves(g, g')
    ensures Sparing(g, b) ==> Sparing(g', b)
  {
    hide Common, ObjKept, StrongSet;
  }

  // At the end of a cycle nothing is dead.
  lemma AllSpared(g: Snap, b: set<Id>)
    requires Valid(g) && g.phase == GCSpause && Sparing(g, b)
    ensures forall x :: x in g.h ==> x in b || g.h[x].Str?
  {
    hide Common;
  }

  /** A step of propagation comes nearer to the end of the mark phase, and keeps all that holds in it. */
  ghost predicate Advances(g: Snap, g': Snap, b: set<Id>) {
    && Valid(g') && Work(g'.m, g'.gray) < Work(g.m, g.gray) && Traverses(g, g') && g'.phase == g.phase
    && Preserves(g, g') && Bounds(g', b)
  }

  lemma StepTraverses(g: Snap, g': Snap)
    requires Valid(g) && g.phase == GCSpropagate && SameButMarks(g, g') && CleanedHeap(g.h, g'.h)
    requires Propagated(g.h, g.m, g.gray, g.again, g.weak, g'.h, g'.m, g'.gray, g'.again, g'.weak, g.k)
    requires g'.m.Keys == g'.h.Keys && Complete(g'.h) && Closed(g'.h, g.k)
      && Lists(g'.h, g'.m, g'.gray, g'.again, g'.weak)
    ensures Traverses(g, g')
  {
    hide Common, NoDead, Tri, Lists, Propagated, Complete, Closed, NonwhiteIn, CleanedHeap, Marks;
    PropagatedTraces(g, g', Postponed(g), true);
    PropagatedMarks(g, g');
    MarksTraverse(g, g');
  }

  // What a step of propagation does as a whole
  lemma StepPropagated(g: Snap, g': Snap, b: set<Id>)
    requires Valid(g) && g.phase == GCSpropagate && Bounds(g, b) && SameButMarks(g, g')
    requires Propagated(g.h, g.m, g.gray, g.again, g.weak, g'.h, g'.m, g'.gray, g'.again, g'.weak, g.k * b)
    requires g'.m.Keys == g'.h.Keys && Complete(g'.h) && Lists(g'.h, g'.m, g'.gray, g'.again, g'.weak)
    ensures Advances(g, g', b)
  {
    hide Valid, Complete, Closed, MarkClosed, Lists, Propagated, Work, CleanedHeap, Preserves, Bounds, Within,
      Traverses;
    StepReady(g, b);
    PropagatedBound(g, g', b);
    PropagatedValid(g, g');
    PropagatedCleans(g, g');
    StepTraverses(g, g');
    BoundsKept(g, g', b);
    MarkPreserves(g, g');
  }
}
