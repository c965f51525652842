/** The program's side of the collector: stores into objects, with the barriers that they need (lgc.h, lvm.c) */
module GCMutator {
  // What a program may do between two steps of the collector, and its write barriers (lgc.h)

  import opened GCHeap
  import opened GCInvariant
  import opened GCSweep
  import opened GCUpvals
  import opened GCAtomic

  // An object that a program has in its hands
  ghost predicate Usable(g: Snap, x: Id) {
    x in g.h && !Dead(g.m, g.cw, x) && x in g.k
  }

  /** Whatever a program can get at from the roots is usable. */
  lemma ReachUsable(g: Snap, x: Id)
    requires Valid(g) && Reach(g.h, Roots(g), x)
    ensures Usable(g, x)
  {
    hide PhaseOk, Upvalues, Placed, Colors, Live, RootsLive, Reach;
    Safety(g, x);
    CoversClosed(g.h, g.m, g.k, Roots(g));
    ReachInside(g.h, Roots(g), g.k, x);
  }

  lemma RootUsable(g: Snap, x: Id)
    requires Valid(g) && x in Roots(g)
    ensures Usable(g, x)
  {
    hide PhaseOk, Upvalues, Placed, Colors, Live;
  }

  // ---- writing into an object ----------------------------------------------------------------------------

  predicate SameKind(a: Obj, b: Obj) {
    match a
    case Udata(_, _) => b.Udata?
    case UpClosed(_) => b.UpClosed?
    case CClosure(_, _) => b.CClosure?
    case LClosure(_, _, _) => b.LClosure?
    case Tab(_, _, _, _, _, _) => b.Tab?
    case Proto(_, _, _, _) => b.Proto?
    case Thread(_, _, open) => b.Thread? && b.open == open
    case _ => false
  }

  // The slots of a thread's open upvalues are still there.
  ghost predicate SlotsFit(h: Heap, t: Obj) {
    t.Thread? ==> forall u :: u in t.open && u in h && h[u].UpOpen? ==> h[u].slot < |t.stack|
  }

  // A program writes t over o.
  ghost predicate Writable(g: Snap, o: Id, t: Obj) {
    && Usable(g, o) && SameKind(g.h[o], t) && SlotsFit(g.h, t)
    && forall r :: Refers(g.h[o := t], t, r) ==> Usable(g, r)
  }

  lemma WrittenRefers(h: Heap, o: Id, t: Obj, y: Id, r: Id)
    requires o in h && y in h && SameKind(h[o], t) && Refers(h[o := t], h[o := t][y], r)
    ensures Refers(h, h[y], r) || Refers(h[o := t], t, r)
  {
  }

  lemma WrittenHolds(h: Heap, o: Id, t: Obj, y: Id, wk: bool, wv: bool, r: Id)
    requires o in h && y in h && y != o && SameKind(h[o], t) && !h[y].UpOpen?
    ensures Holds(h[o := t], h[o := t][y], wk, wv, r) == Holds(h, h[y], wk, wv, r)
  {
  }

  lemma WrittenLive(g: Snap, o: Id, t: Obj)
    requires Live(g.h, g.m, g.cw) && Closed(g.h, g.k) && Writable(g, o, t)
    ensures Live(g.h[o := t], g.m, g.cw) && Closed(g.h[o := t], g.k)
  {
    hide Refers;
    var h' := g.h[o := t];
    forall y, r | y in h' && Refers(h', h'[y], r)
      ensures !Dead(g.m, g.cw, y) ==> r in h' && !Dead(g.m, g.cw, r)
      ensures y in g.k ==> r in g.k
    {
      assert y in g.h && o in g.h;
      WrittenRefers(g.h, o, t, y, r);
      if Refers(g.h, g.h[y], r) {
        assert y in g.k ==> r in g.k;
      } else {
        assert Usable(g, r);
      }
    }
  }

  lemma WrittenHomes(h: Heap, o: Id, t: Obj)
    requires UpvalHomes(h) && o in h && SameKind(h[o], t) && SlotsFit(h, t)
    ensures UpvalHomes(h[o := t])
  {
  }

  lemma WrittenOpenLists(h: Heap, o: Id, t: Obj)
    requires OpenLists(h) && o in h && SameKind(h[o], t)
    ensures OpenLists(h[o := t])
  {
    var h' := h[o := t];
    forall th | th in h' && h'[th].Thread?
      ensures OpenList(h', th, h'[th].open)
    {
      assert OpenList(h, th, h[th].open);
    }
  }

  lemma WrittenUvList(h: Heap, uv: seq<Id>, o: Id, t: Obj)
    requires UvList(h, uv) && o in h && SameKind(h[o], t)
    ensures UvList(h[o := t], uv)
  {
  }

  lemma WrittenPlaced(h: Heap, m: Marking, root: seq<Id>, tmu: seq<Id>, strt: seq<seq<Id>>, o: Id, t: Obj)
    requires Placed(h, m, root, tmu, strt) && o in h && SameKind(h[o], t)
    ensures Placed(h[o := t], m, root, tmu, strt)
  {
    WrittenStrings(h, strt, o, t);
    hide Strings;
  }

  lemma WrittenStrings(h: Heap, strt: seq<seq<Id>>, o: Id, t: Obj)
    requires Strings(h, strt) && o in h && SameKind(h[o], t)
    ensures Strings(h[o := t], strt)
  {
  }

  lemma WrittenRest(g: Snap, o: Id, t: Obj)
    requires o in g.h && SameKind(g.h[o], t) && RootsLive(g) && Colors(g.h, g.m) && g.m.Keys == g.h.Keys
    requires forall x :: x in g.udata ==> x in g.h && g.h[x].Udata?
    ensures var g' := g.(h := g.h[o := t]);
            && RootsLive(g') && Colors(g'.h, g'.m) && g'.m.Keys == g'.h.Keys && Roots(g') == Roots(g)
            && forall x :: x in g'.udata ==> x in g'.h && g'.h[x].Udata?
  {
    assert ColorOk(g.h[o], g.m[o].color);
  }

  lemma WrittenCovers(h: Heap, m: Marking, k: set<Id>, roots: set<Id>, o: Id, t: Obj)
    requires Covers(h, m, k, roots) && o in h && SameKind(h[o], t) && Closed(h[o := t], k)
    ensures Covers(h[o := t], m, k, roots)
  {
    hide Closed;
  }

  lemma WrittenCommon(g: Snap, o: Id, t: Obj)
    requires Common(g) && Writable(g, o, t)
    ensures Common(g.(h := g.h[o := t]))
  {
    hide UpvalHomes, OpenLists, UvList, Placed, Colors, Closed, Live, Covers, RootsLive, SlotsFit, SameKind, Dead;
    CoversClosed(g.h, g.m, g.k, Roots(g));
    WrittenLive(g, o, t);
    WrittenHomes(g.h, o, t);
    WrittenOpenLists(g.h, o, t);
    WrittenUvList(g.h, g.uv, o, t);
    WrittenPlaced(g.h, g.m, RootList(g), g.tmu, g.strt, o, t);
    WrittenRest(g, o, t);
    WrittenCovers(g.h, g.m, g.k, Roots(g), o, t);
  }

  // ---- the phases ----------------------------------------------------------------------------------------

  lemma WrittenIdle(h: Heap, m: Marking, cw: bool, tmu: seq<Id>, o: Id, t: Obj)
    requires Idle(h, m, cw, tmu) && o in h
    ensures Idle(h[o := t], m, cw, tmu)
  {
  }

  lemma WrittenSwept(h: Heap, m: Marking, cw: bool, root: seq<Id>, n: nat, o: Id, t: Obj)
    requires RootsSwept(h, m, cw, root, n) && o in h && SameKind(h[o], t)
    ensures RootsSwept(h[o := t], m, cw, root, n)
  {
    forall x | x in root[..n]
      ensures Swept(h[o := t], m, cw, x)
    {
      assert Swept(h, m, cw, x);
    }
  }

  lemma WrittenCondemned(h: Heap, m: Marking, cw: bool, k: set<Id>, o: Id, t: Obj)
    requires Condemned(h, m, cw, k) && o in h
    ensures Condemned(h[o := t], m, cw, k)
  {
  }

  lemma WrittenLists(h: Heap, m: Marking, gray: seq<Id>, again: seq<Id>, weak: seq<Id>, o: Id, t: Obj)
    requires Lists(h, m, gray, again, weak) && o in h && SameKind(h[o], t)
    ensures Lists(h[o := t], m, gray, again, weak)
  {
    assert Queued(t) == Queued(h[o]);
  }

  // The written object is still to be traversed, or does not matter yet.
  lemma WrittenTri(h: Heap, m: Marking, todo: set<Id>, o: Id, t: Obj)
    requires Tri(h, m, todo, true) && o in h && SameKind(h[o], t)
    ensures Tri(h[o := t], m, todo + {o}, true)
  {
    var h' := h[o := t];
    forall x | x in h' && Nonwhite(m, x) && x !in todo + {o} && !(true && h'[x].UpOpen?)
      ensures Traced(h', m, x)
    {
      assert Traced(h, m, x);
      forall r | Holds(h', h'[x], KeysWeak(m[x]), ValuesWeak(m[x]), r)
        ensures Nonwhite(m, r)
      {
        WrittenHolds(h, o, t, x, KeysWeak(m[x]), ValuesWeak(m[x]), r);
      }
    }
  }

  // The mark phase with one object that may hold white ones
  ghost predicate TracesBut(g: Snap, o: Id) {
    && g.phase == GCSpropagate && NoDead(g.h, g.m, g.cw) && NonwhiteIn(g.h, g.m, g.k)
      && Lists(g.h, g.m, g.gray, g.again, g.weak)
    && Tri(g.h, g.m, Postponed(g) + Listed(g.gray) + {o}, true) && Nonwhite(g.m, g.main) && Nonwhite(g.m, g.reg)
  }

  lemma WrittenTraces(g: Snap, o: Id, t: Obj)
    requires Valid(g) && g.phase == GCSpropagate && o in g.h && SameKind(g.h[o], t)
    ensures TracesBut(g.(h := g.h[o := t]), o)
  {
    hide Common, Lists, Tri;
    WrittenLists(g.h, g.m, g.gray, g.again, g.weak, o, t);
    WrittenTri(g.h, g.m, Postponed(g) + Listed(g.gray), o, t);
    WrittenNoDead(g.h, g.m, g.cw, g.k, o, t);
  }

  lemma WrittenNoDead(h: Heap, m: Marking, cw: bool, k: set<Id>, o: Id, t: Obj)
    requires NoDead(h, m, cw) && NonwhiteIn(h, m, k) && o in h
    ensures NoDead(h[o := t], m, cw) && NonwhiteIn(h[o := t], m, k)
  {
  }

  // The exception is not needed for an object that is white, or still to be traversed, or traced.
  lemma TracesAgain(g: Snap, o: Id)
    requires TracesBut(g, o)
    requires !Nonwhite(g.m, o) || o in g.gray || o in g.again || o in g.weak || o in g.tmu || (o in g.h
      && g.h[o].UpOpen?) || Traced(g.h, g.m, o)
    ensures Traces(g, Postponed(g), true)
  {
    hide NoDead, Lists, NonwhiteIn, Traced;
  }

  // Outside the mark phase a write needs no barrier.
  lemma WrittenPhase(g: Snap, o: Id, t: Obj)
    requires Valid(g) && g.phase != GCSpropagate && o in g.h && SameKind(g.h[o], t)
    ensures PhaseOk(g.(h := g.h[o := t]))
  {
    hide Common, Idle, StringsSwept, RootsSwept, Condemned;
    var g' := g.(h := g.h[o := t]);
    if g.phase == GCSpause || g.phase == GCSfinalize {
      WrittenIdle(g.h, g.m, g.cw, g.tmu, o, t);
    } else {
      WrittenCondemned(g.h, g.m, g.cw, g.k, o, t);
      if g.phase == GCSsweep { WrittenSwept(g.h, g.m, g.cw, RootList(g), g.sweepgc, o, t); }
    }
  }

  /** Threads are traversed again at the end of the mark phase: the stack needs no barrier. */
  lemma StackWritten(g: Snap, th: Id, t: Obj)
    requires Valid(g) && Writable(g, th, t) && t.Thread?
    ensures Valid(g.(h := g.h[th := t]))
  {
    hide Common, Lists, PhaseOk;
    WrittenCommon(g, th, t);
    StackPhase(g, th, t);
  }

  lemma StackPhase(g: Snap, th: Id, t: Obj)
    requires Valid(g) && th in g.h && SameKind(g.h[th], t) && t.Thread?
    ensures PhaseOk(g.(h := g.h[th := t]))
  {
    hide Common, Lists, Tri, NoDead, NonwhiteIn, Condemned, RootsSwept, StringsSwept, Idle, TracesBut;
    var g' := g.(h := g.h[th := t]);
    if g.phase == GCSpropagate {
      WrittenTraces(g, th, t);
      ThreadListed(g, th);
      TracesAgain(g', th);
    } else {
      WrittenPhase(g, th, t);
    }
  }

  lemma ThreadListed(g: Snap, th: Id)
    requires Valid(g) && g.phase == GCSpropagate && th in g.h && g.h[th].Thread?
    ensures !Nonwhite(g.m, th) || th in g.gray || th in g.again || th in g.weak
  {
    hide Upvalues, Placed, Live, Covers, RootsLive, Tri;
    assert ColorOk(g.h[th], g.m[th].color);
  }

  // ---- the slot of an open upvalue -----------------------------------------------------------------------

  // The thread when v is stored into a slot of its stack
  function SlotStored(h: Heap, th: Id, slot: nat, v: Value): Obj
    requires th in h && h[th].Thread? && slot < |h[th].stack|
  {
    h[th].(stack := h[th].stack[slot := v])
  }

  lemma StoredRefers(h: Heap, th: Id, slot: nat, v: Value, y: Id, r: Id)
    requires th in h && h[th].Thread? && slot < |h[th].stack| && y in h
    requires var h' := h[th := SlotStored(h, th, slot, v)];
             Refers(h', h'[y], r)
    ensures Refers(h, h[y], r) || v == Ref(r)
  {
    var t := SlotStored(h, th, slot, v);
    if HasRef(t.stack, r) {
      var i :| 0 <= i < |t.stack| && t.stack[i] == Ref(r);
      assert i == slot || h[th].stack[i] == Ref(r);
    }
  }

  lemma StoredLive(g: Snap, th: Id, slot: nat, v: Value)
    requires Live(g.h, g.m, g.cw) && Closed(g.h, g.k) && th in g.h && g.h[th].Thread? && slot < |g.h[th].stack|
    requires v.Ref? ==> Usable(g, v.id)
    ensures var h' := g.h[th := SlotStored(g.h, th, slot, v)];
            Live(h', g.m, g.cw) && Closed(h', g.k)
  {
    hide Refers;
    var h' := g.h[th := SlotStored(g.h, th, slot, v)];
    forall y, r | y in h' && Refers(h', h'[y], r)
      ensures !Dead(g.m, g.cw, y) ==> r in h' && !Dead(g.m, g.cw, r)
      ensures y in g.k ==> r in g.k
    {
      StoredRefers(g.h, th, slot, v, y, r);
    }
  }

  lemma StoredCommon(g: Snap, th: Id, slot: nat, v: Value)
    requires Common(g) && th in g.h && g.h[th].Thread? && slot < |g.h[th].stack| && (v.Ref? ==> Usable(g, v.id))
    ensures Common(g.(h := g.h[th := SlotStored(g.h, th, slot, v)]))
  {
    hide UpvalHomes, OpenLists, UvList, Placed, Colors, Closed, Live, Covers, RootsLive, SlotsFit, Usable;
    var t := SlotStored(g.h, th, slot, v);
    CoversClosed(g.h, g.m, g.k, Roots(g));
    StoredLive(g, th, slot, v);
    StoredFits(g.h, th, slot, v);
    WrittenHomes(g.h, th, t);
    WrittenOpenLists(g.h, th, t);
    WrittenUvList(g.h, g.uv, th, t);
    WrittenPlaced(g.h, g.m, RootList(g), g.tmu, g.strt, th, t);
    WrittenRest(g, th, t);
    WrittenCovers(g.h, g.m, g.k, Roots(g), th, t);
  }

  lemma StoredFits(h: Heap, th: Id, slot: nat, v: Value)
    requires UpvalHomes(h) && OpenLists(h) && th in h && h[th].Thread? && slot < |h[th].stack|
    ensures SlotsFit(h, SlotStored(h, th, slot, v))
  {
    assert OpenList(h, th, h[th].open);
  }

  // The stack slot of an open upvalue exists.
  lemma UpvalSlot(g: Snap, u: Id)
    requires Valid(g) && u in g.h && g.h[u].UpOpen?
    ensures g.h[u].th in g.h && g.h[g.h[u].th].Thread? && g.h[u].slot < |g.h[g.h[u].th].stack|
  {
    hide PhaseOk, OpenLists, UvList, Placed, Colors, Live, Covers, RootsLive;
  }

  /** A program may store through an open upvalue, also when it cannot get at the thread that has the slot: the
      atomic step looks at open upvalues again. */
  lemma UpvalWritten(g: Snap, u: Id, v: Value)
    requires Valid(g) && Usable(g, u) && g.h[u].UpOpen? && (v.Ref? ==> Usable(g, v.id))
    ensures var th, slot := g.h[u].th, g.h[u].slot;
            && th in g.h && g.h[th].Thread? && slot < |g.h[th].stack|
            && Valid(g.(h := g.h[th := SlotStored(g.h, th, slot, v)]))
  {
    hide Common, PhaseOk;
    UpvalSlot(g, u);
    StoredCommon(g, g.h[u].th, g.h[u].slot, v);
    StackPhase(g, g.h[u].th, SlotStored(g.h, g.h[u].th, g.h[u].slot, v));
  }

  // ---- the back barrier: tables --------------------------------------------------------------------------

  predicate IsWhiteRef(m: Marking, v: Value) {
    v.Ref? && v.id in m && m[v.id].color.White?
  }

  // t holds nothing but what o held, and v.
  ghost predicate AddsOnly(g: Snap, o: Id, t: Obj, v: Value) {
    && o in g.h && (v.Ref? ==> Usable(g, v.id))
    && forall r :: Holds(g.h[o := t], t, false, false, r) ==> Holds(g.h, g.h[o], false, false, r) || v == Ref(r)
  }

  // luaC_barrierback
  function Grayed(g: Snap, o: Id): Snap {
    if o in g.m then g.(m := g.m[o := g.m[o].(color := Gray)], again := [o] + g.again) else g
  }

  lemma RecolorMarks(h: Heap, m: Marking, o: Id, c: Color, cw: bool, m': Marking)
    requires o in m && !m[o].color.White? && !c.White? && m' == m[o := m[o].(color := c)] && o in h && h[o].Tab?
    ensures m'.Keys == m.Keys && (forall x :: Dead(m', cw, x) <==> Dead(m, cw, x))
      && (forall x :: Nonwhite(m', x) <==> Nonwhite(m, x))
    ensures (forall x :: x in m ==> m'[x].finalized == m[x].finalized) && (Colors(h, m) ==> Colors(h, m'))
    ensures Live(h, m, cw) ==> Live(h, m', cw)
  {
    if Colors(h, m) {
      forall x | x in h
        ensures x in m' && ColorOk(h[x], m'[x].color)
      {
        assert ColorOk(h[x], m[x].color);
      }
    }
  }

  lemma RecolorCommon(g: Snap, g': Snap)
    requires Common(g) && g' == g.(m := g'.m, again := g'.again) && g'.m.Keys == g.m.Keys && Colors(g'.h, g'.m)
      && Live(g'.h, g'.m, g'.cw)
    requires (forall x :: Dead(g'.m, g.cw, x) <==> Dead(g.m, g.cw, x))
      && (forall x :: x in g.m ==> g'.m[x].finalized == g.m[x].finalized)
    ensures Common(g')
  {
    hide Upvalues, Placed, Colors, Closed, Live, Covers, RootsLive, Dead;
    FinalizedPlaced(g.h, g.m, g'.m, RootList(g), g.tmu, g.strt);
    CoversClosed(g.h, g.m, g.k, Roots(g));
    FinalizedCovers(g.h, g.h, g.m, g'.m, g.k, Roots(g));
    RecolorRoots(g, g');
  }

  lemma RecolorRoots(g: Snap, g': Snap)
    requires RootsLive(g) && g' == g.(m := g'.m, again := g'.again)
      && (forall x :: Dead(g'.m, g.cw, x) <==> Dead(g.m, g.cw, x))
    ensures RootsLive(g') && Roots(g') == Roots(g)
  {
  }

  lemma GrayedLists(h: Heap, m: Marking, gray: seq<Id>, again: seq<Id>, weak: seq<Id>, o: Id)
    requires Lists(h, m, gray, again, weak) && o in h && h[o].Tab? && o in m && m[o].color.Black?
    ensures Lists(h, m[o := m[o].(color := Gray)], gray, [o] + again, weak)
  {
    NoDupCons(o, again);
  }

  lemma GrayedTri(h: Heap, m: Marking, todo: set<Id>, o: Id)
    requires Tri(h, m, todo + {o}, true) && o in m && o in h && Nonwhite(m, o)
    ensures Tri(h, m[o := m[o].(color := Gray)], todo + {o}, true)
  {
    var m' := m[o := m[o].(color := Gray)];
    forall x | x in h && Nonwhite(m', x) && x !in todo + {o} && !(true && h[x].UpOpen?)
      ensures Traced(h, m', x)
    {
      assert Traced(h, m, x);
      TracedSame(h, m, m', x);
    }
  }

  lemma GrayedTraces(g: Snap, o: Id)
    requires TracesBut(g, o) && o in g.h && g.h[o].Tab? && o in g.m && g.m[o].color.Black? && g.m.Keys == g.h.Keys
    ensures Traces(Grayed(g, o), Postponed(Grayed(g, o)), true)
  {
    hide Lists, Tri, NoDead, NonwhiteIn;
    var g' := Grayed(g, o);
    GrayedLists(g.h, g.m, g.gray, g.again, g.weak, o);
    GrayedTri(g.h, g.m, Postponed(g) + Listed(g.gray), o);
    assert Listed([o] + g.again) == {o} + Listed(g.again);
    assert Postponed(g') + Listed(g'.gray) == Postponed(g) + Listed(g.gray) + {o};
    GrayedBasics(g, o);
  }

  lemma GrayedBasics(g: Snap, o: Id)
    requires o in g.m && o in g.h && Nonwhite(g.m, o)
    ensures var m' := g.m[o := g.m[o].(color := Gray)];
            && (NoDead(g.h, g.m, g.cw) ==> NoDead(g.h, m', g.cw))
              && (NonwhiteIn(g.h, g.m, g.k) ==> NonwhiteIn(g.h, m', g.k))
            && forall x :: Nonwhite(m', x) <==> Nonwhite(g.m, x)
  {
  }

  lemma GrayedSweep(g: Snap, o: Id)
    requires Common(g) && PhaseOk(g) && (g.phase == GCSsweepstring || g.phase == GCSsweep)
    requires o in g.h && g.h[o].Tab? && o in g.m && g.m[o].color.Black?
    ensures PhaseOk(Grayed(g, o))
  {
    hide Common, StringsSwept, RootsSwept;
    NotString(g, o);
    var g' := Grayed(g, o);
    GrayedStrings(g.m, g.cw, g.strt, if g.phase == GCSsweep then |g.strt| else g.sweepstr, o);
    if g.phase == GCSsweep { GrayedRoots(g.h, g.m, g.cw, RootList(g), g.sweepgc, o); }
  }

  lemma NotString(g: Snap, o: Id)
    requires Common(g) && o in g.h && g.h[o].Tab?
    ensures forall b, x :: 0 <= b < |g.strt| && x in g.strt[b] ==> x != o
  {
    hide Upvalues, Colors, Live, Covers, RootsLive;
  }

  lemma GrayedStrings(m: Marking, cw: bool, strt: seq<seq<Id>>, n: nat, o: Id)
    requires StringsSwept(m, cw, strt, n) && o in m && forall b, x :: 0 <= b < |strt| && x in strt[b] ==> x != o
    ensures StringsSwept(m[o := m[o].(color := Gray)], cw, strt, n)
  {
  }

  lemma GrayedRoots(h: Heap, m: Marking, cw: bool, root: seq<Id>, n: nat, o: Id)
    requires RootsSwept(h, m, cw, root, n) && o in m && m[o].color.Black?
    ensures RootsSwept(h, m[o := m[o].(color := Gray)], cw, root, n)
  {
    var m' := m[o := m[o].(color := Gray)];
    forall x | x in root[..n]
      ensures Swept(h, m', cw, x)
    {
      assert Swept(h, m, cw, x);
    }
  }

  /** Writing into a table: a black table that gets a white value turns gray and is traversed again. */
  lemma TableWritten(g: Snap, o: Id, t: Obj, v: Value)
    requires Valid(g) && Writable(g, o, t) && t.Tab? && AddsOnly(g, o, t, v)
    ensures var g1 := g.(h := g.h[o := t]);
            o in g.m && Valid(if g.m[o].color.Black? && IsWhiteRef(g.m, v) then Grayed(g1, o) else g1)
    ensures g.m[o].color.Black? ==> g.phase != GCSpause && g.phase != GCSfinalize
  {
    hide Common, Lists, Tri, NoDead, NonwhiteIn, Writable, AddsOnly, TracesBut;
    var g1 := g.(h := g.h[o := t]);
    WrittenCommon(g, o, t);
    WritableIs(g, o, t);
    if g.m[o].color.Black? { BlackTable(g, o); }
    if g.phase == GCSpropagate {
      WrittenTraces(g, o, t);
      if g.m[o].color.Black? && IsWhiteRef(g.m, v) {
        GrayedTraces(g1, o);
      } else {
        TableTracedOrListed(g, o, t, v);
        TracesAgain(g1, o);
      }
    } else {
      WrittenPhase(g, o, t);
      if g.m[o].color.Black? { GrayedSweep(g1, o); }
    }
    if g.m[o].color.Black? {
      RecolorMarks(g1.h, g1.m, o, Gray, g1.cw, Grayed(g1, o).m) by { CommonLive(g1); }
      CommonLive(g1);
      RecolorCommon(g1, Grayed(g1, o));
    }
  }

  lemma CommonLive(g: Snap)
    requires Common(g)
    ensures Live(g.h, g.m, g.cw) && Colors(g.h, g.m) && g.m.Keys == g.h.Keys
  {
  }

  lemma WritableIs(g: Snap, o: Id, t: Obj)
    requires Common(g) && Writable(g, o, t)
    ensures o in g.h && o in g.m && SameKind(g.h[o], t) && !Dead(g.m, g.cw, o) && o in g.k && g.m.Keys == g.h.Keys
  {
  }

  lemma BlackTable(g: Snap, o: Id)
    requires Valid(g) && o in g.h && g.h[o].Tab? && o in g.m && g.m[o].color.Black?
    ensures g.phase != GCSpause && g.phase != GCSfinalize
  {
    hide Upvalues, Colors, Live, Covers, RootsLive, Strings;
  }

  lemma TableTracedOrListed(g: Snap, o: Id, t: Obj, v: Value)
    requires Valid(g) && g.phase == GCSpropagate && t.Tab? && AddsOnly(g, o, t, v) && o in g.m && g.h[o].Tab?
    requires !(g.m[o].color.Black? && IsWhiteRef(g.m, v))
    ensures !Nonwhite(g.m, o) || o in g.gray || o in g.again || o in g.weak || Traced(g.h[o := t], g.m, o)
  {
    hide Common, Holds, Lists, NoDead, NonwhiteIn;
    TmuNotTable(g, o);
    if g.m[o].color.Black? {
      if o !in g.gray && o !in g.again && o !in g.weak { BlackTraced(g, o, t, v); }
    } else if Nonwhite(g.m, o) {
      GrayListed(g.h, g.m, g.gray, g.again, g.weak, o);
    }
  }

  lemma GrayListed(h: Heap, m: Marking, gray: seq<Id>, again: seq<Id>, weak: seq<Id>, o: Id)
    requires Lists(h, m, gray, again, weak) && o in h && o in m && m[o].color.Gray? && h[o].Tab?
    ensures o in gray || o in again || o in weak
  {
  }

  lemma BlackTraced(g: Snap, o: Id, t: Obj, v: Value)
    requires AddsOnly(g, o, t, v) && o in g.m && g.m[o].color.Black? && Traced(g.h, g.m, o) && !IsWhiteRef(g.m, v)
      && g.m.Keys == g.h.Keys
    ensures Traced(g.h[o := t], g.m, o)
  {
    var h' := g.h[o := t];
    forall r | Holds(h', h'[o], KeysWeak(g.m[o]), ValuesWeak(g.m[o]), r)
      ensures Nonwhite(g.m, r)
    {
      assert Holds(h', t, false, false, r);
    }
  }

  lemma TmuNotTable(g: Snap, o: Id)
    requires Common(g) && o in g.h && g.h[o].Tab?
    ensures o !in g.tmu && g.m.Keys == g.h.Keys
  {
  }

  // ---- the forward barrier: all other objects ------------------------------------------------------------

  // What a program can get at from the roots
  ghost predicate InReach(g: Snap, v: Value) {
    v.Ref? ==> Reach(g.h, Roots(g), v.id)
  }

  lemma ReachRefs(g: Snap, x: Id)
    requires Valid(g) && Reach(g.h, Roots(g), x)
    ensures Usable(g, x) && forall r :: Refers(g.h, g.h[x], r) ==> Usable(g, r)
  {
    hide Valid, Refers, Reach, Usable;
    ReachUsable(g, x);
    assert x in g.h by { UsableExists(g, x); }
    forall r | Refers(g.h, g.h[x], r)
      ensures Usable(g, r)
    {
      ReachStep(g.h, Roots(g), x, r);
      ReachUsable(g, r);
    }
  }

  lemma UsableExists(g: Snap, x: Id)
    requires Usable(g, x)
    ensures x in g.h
  {
  }

  lemma ValueUsable(g: Snap, v: Value)
    requires Valid(g) && InReach(g, v)
    ensures v.Ref? ==> Usable(g, v.id)
  {
    hide Valid, Reach, Usable;
    if v.Ref? { ReachUsable(g, v.id); }
  }

  /** The stores of a program are allowed: what it can get at may go into each array slot, entry with a value, closed
      upvalue and environment that it can get at. */
  lemma SlotAllowed(g: Snap, x: Id, i: nat, v: Value)
    requires Valid(g) && Reach(g.h, Roots(g), x) && InReach(g, v)
    requires x in g.h && g.h[x].Tab? && i < |g.h[x].arr|
    ensures var t := g.h[x].(arr := g.h[x].arr[i := v]);
            Writable(g, x, t) && AddsOnly(g, x, t, v)
  {
    hide Valid, Reach, Usable;
    ReachRefs(g, x);
    ValueUsable(g, v);
    var t := g.h[x].(arr := g.h[x].arr[i := v]);
    assert forall r :: HasRef(t.arr, r) ==> HasRef(g.h[x].arr, r) || v == Ref(r);
  }

  lemma EntryAllowed(g: Snap, x: Id, i: nat, v: Value)
    requires Valid(g) && Reach(g.h, Roots(g), x) && InReach(g, v)
    requires x in g.h && g.h[x].Tab? && i < |g.h[x].nodes| && g.h[x].nodes[i].val != Nil
    ensures var t := g.h[x].(nodes := g.h[x].nodes[i := g.h[x].nodes[i].(val := v)]);
            Writable(g, x, t) && AddsOnly(g, x, t, v)
  {
    hide Valid, Reach, Usable;
    ReachRefs(g, x);
    ValueUsable(g, v);
    var ns := g.h[x].nodes;
    var ns' := ns[i := ns[i].(val := v)];
    forall r | NodesRefer(ns', r)
      ensures NodesRefer(ns, r) || v == Ref(r)
    {
      var j :| 0 <= j < |ns'| && NodeRefers(ns'[j], r);
      if v != Ref(r) { assert NodeRefers(ns[j], r); }
    }
    forall r | NodesHold(ns', false, false, r)
      ensures NodesHold(ns, false, false, r) || v == Ref(r)
    {
      var j :| 0 <= j < |ns'| && NodeHolds(ns'[j], false, false, r);
      if v != Ref(r) { assert NodeHolds(ns[j], false, false, r); }
    }
  }

  lemma UpvalAllowed(g: Snap, x: Id, v: Value)
    requires Valid(g) && Reach(g.h, Roots(g), x) && InReach(g, v) && x in g.h && g.h[x].UpClosed?
    ensures Writable(g, x, UpClosed(v)) && AddsOnly(g, x, UpClosed(v), v) && Forward(UpClosed(v))
  {
    hide Valid, Reach, Usable;
    ReachRefs(g, x);
    ValueUsable(g, v);
  }

  lemma EnvAllowed(g: Snap, x: Id, e: Id)
    requires Valid(g) && Reach(g.h, Roots(g), x) && Reach(g.h, Roots(g), e)
    requires x in g.h && (g.h[x].Udata? || g.h[x].CClosure? || g.h[x].LClosure?)
    ensures var t := g.h[x].(env := e);
            Writable(g, x, t) && AddsOnly(g, x, t, Ref(e)) && Forward(t)
  {
    hide Valid, Reach, Usable;
    ReachRefs(g, x);
    ReachUsable(g, e);
  }

  // Objects that luaC_barrier protects
  predicate Forward(o: Obj) {
    o.Udata? || o.UpClosed? || o.CClosure? || o.LClosure? || o.Proto?
  }

  lemma ForwardListed(g: Snap, o: Id)
    requires Valid(g) && g.phase == GCSpropagate && o in g.h && Forward(g.h[o])
    ensures o in g.m && (g.m[o].color.Gray? ==> o in g.gray || o in g.again || o in g.weak)
  {
    hide Upvalues, Placed, Live, Covers, RootsLive, Tri;
    assert ColorOk(g.h[o], g.m[o].color);
  }

  // No barrier is needed.
  lemma ForwardPlain(g: Snap, o: Id, t: Obj, v: Value)
    requires Valid(g) && Writable(g, o, t) && Forward(t) && AddsOnly(g, o, t, v) && o in g.m
    requires !(g.m[o].color.Black? && IsWhiteRef(g.m, v))
    ensures Valid(g.(h := g.h[o := t]))
  {
    hide Common, Lists, Tri, NoDead, NonwhiteIn, Writable, AddsOnly, TracesBut, Forward, Traced;
    var g1 := g.(h := g.h[o := t]);
    WrittenCommon(g, o, t);
    WritableIs(g, o, t);
    if g.phase == GCSpropagate {
      WrittenTraces(g, o, t);
      ForwardKind(g.h[o], t);
      ForwardListed(g, o);
      ForwardTraced(g, o, t, v);
      TracesAgain(g1, o);
    } else {
      WrittenPhase(g, o, t);
    }
  }

  lemma ForwardKind(a: Obj, b: Obj)
    requires SameKind(a, b) && Forward(b)
    ensures Forward(a)
  {
  }

  lemma ForwardTraced(g: Snap, o: Id, t: Obj, v: Value)
    requires Valid(g) && g.phase == GCSpropagate && AddsOnly(g, o, t, v) && o in g.m && g.m.Keys == g.h.Keys
    requires !(g.m[o].color.Black? && IsWhiteRef(g.m, v)) && !g.h[o].UpOpen?
    ensures g.m[o].color.Black? && o !in Postponed(g) + Listed(g.gray) ==> Traced(g.h[o := t], g.m, o)
  {
    hide Common, Lists, NoDead, NonwhiteIn, Holds;
    if g.m[o].color.Black? && o !in Postponed(g) + Listed(g.gray) {
      BlackTraced(g, o, t, v);
    }
  }

  // reallymarkobject(v): what o holds is marked then.
  lemma ForwardMarked(g: Snap, o: Id, t: Obj, v: Id, g': Snap)
    requires Valid(g) && g.phase == GCSpropagate && Writable(g, o, t) && Forward(t) && AddsOnly(g, o, t, Ref(v))
      && o in g.m && g.m[o].color.Black?
    requires g' == g.(h := g.h[o := t], m := g'.m, gray := g'.gray)
    requires Marked(g'.h, g.m, g.gray, g'.m, g'.gray, g.k) && Nonwhite(g'.m, v)
    ensures Valid(g')
  {
    hide Common, Lists, Tri, NoDead, NonwhiteIn, Writable, AddsOnly, TracesBut, Forward, Marked, Traces, PhaseOk;
    var g1 := g.(h := g.h[o := t]);
    WrittenCommon(g, o, t);
    WritableIs(g, o, t);
    WrittenTraces(g, o, t);
    CommonLive(g1);
    ForwardTri(g, o, t, v, g');
    ForwardMarkedTraces(g1, g', o);
  }

  lemma ForwardTri(g: Snap, o: Id, t: Obj, v: Id, g': Snap)
    requires Valid(g) && g.phase == GCSpropagate && AddsOnly(g, o, t, Ref(v)) && o in g.m && g.m[o].color.Black?
      && !g.h[o].UpOpen?
    requires g' == g.(h := g.h[o := t], m := g'.m, gray := g'.gray)
    requires Marked(g'.h, g.m, g.gray, g'.m, g'.gray, g.k) && Nonwhite(g'.m, v)
    ensures o in Postponed(g) + Listed(g.gray) || Traced(g'.h, g'.m, o)
  {
    hide Common, Lists, NoDead, NonwhiteIn, Holds, Pushed;
    if o !in Postponed(g) + Listed(g.gray) {
      assert Traced(g.h, g.m, o);
      assert g'.m[o] == g.m[o];
      assert !KeysWeak(g.m[o]) && !ValuesWeak(g.m[o]);
      MarkedKeys(g'.h, g.m, g.gray, g'.m, g'.gray, g.k);
      forall r | Holds(g'.h, g'.h[o], KeysWeak(g'.m[o]), ValuesWeak(g'.m[o]), r)
        ensures Nonwhite(g'.m, r)
      {
        assert Holds(g.h[o := t], t, false, false, r);
        if v != r { assert Holds(g.h, g.h[o], KeysWeak(g.m[o]), ValuesWeak(g.m[o]), r); }
      }
    }
  }

  lemma ForwardMarkedTraces(g1: Snap, g': Snap, o: Id)
    requires Common(g1) && TracesBut(g1, o) && g' == g1.(m := g'.m, gray := g'.gray)
      && Marked(g1.h, g1.m, g1.gray, g'.m, g'.gray, g1.k)
    requires o in Postponed(g1) + Listed(g1.gray) || Traced(g'.h, g'.m, o)
    ensures Valid(g')
  {
    hide Common, Lists, Tri, NoDead, NonwhiteIn, Marked, Traced;
    var todo := Postponed(g1) + {o};
    assert Postponed(g1) + Listed(g1.gray) + {o} == todo + Listed(g1.gray);
    MarkedTraces(g1, g', todo, true);
    assert Postponed(g') == Postponed(g1);
    assert todo + Listed(g'.gray) == Postponed(g') + Listed(g'.gray) + {o};
    GrayStays(g1, g');
    TracesAgain(g', o);
  }

  lemma GrayStays(g: Snap, g': Snap)
    requires Marked(g.h, g.m, g.gray, g'.m, g'.gray, g.k)
    ensures Listed(g.gray) <= Listed(g'.gray)
  {
    assert g'.gray == g'.gray[..|g'.gray| - |g.gray|] + g.gray;
  }

  // What reallymarkobject needs for the forward barrier
  lemma ForwardReady(g: Snap, o: Id, t: Obj, v: Id)
    requires Valid(g) && g.phase == GCSpropagate && Writable(g, o, t) && Usable(g, v)
    ensures var h' := g.h[o := t];
            h'.Keys == g.m.Keys && Complete(h') && Closed(h', g.k) && v in h' && v in g.k && o in g.m
  {
    hide Lists, Tri, NonwhiteIn, Upvalues, Placed, Colors, Writable;
    WrittenCommon(g, o, t);
    WritableIs(g, o, t);
    var g1 := g.(h := g.h[o := t]);
    assert NoDead(g1.h, g1.m, g1.cw);
    LiveComplete(g1.h, g1.m, g1.cw);
    CoversClosed(g1.h, g1.m, g1.k, Roots(g1));
  }

  // Outside the mark phase the barrier only makes the object white, to avoid further barriers.
  lemma WhitenPhase(g: Snap, x: Id)
    requires Common(g) && PhaseOk(g) && g.phase != GCSpropagate && x in g.m && !Dead(g.m, g.cw, x)
    ensures PhaseOk(g.(m := MadeWhite(g.m, x, g.cw)))
  {
    hide Common;
    if g.phase == GCSsweepstring {
      WhitenStringsSwept(g.m, g.cw, g.strt, g.sweepstr, x);
      WhitenCondemned(g.h, g.m, g.cw, g.k, x);
    } else if g.phase == GCSsweep {
      WhitenStringsSwept(g.m, g.cw, g.strt, |g.strt|, x);
      WhitenRootsSwept(g.h, g.m, g.cw, RootList(g), g.sweepgc, x);
      WhitenCondemned(g.h, g.m, g.cw, g.k, x);
    }
  }

  lemma WhitenValid(g: Snap, x: Id)
    requires Valid(g) && g.phase != GCSpropagate && x in g.h && !Dead(g.m, g.cw, x)
    ensures Valid(g.(m := MadeWhite(g.m, x, g.cw)))
  {
    CommonLive(g);
    hide Common, PhaseOk, MadeWhite;
    WhitenCommon(g, x);
    WhitenPhase(g, x);
  }

  lemma ForwardWhitened(g: Snap, o: Id, t: Obj)
    requires Valid(g) && g.phase != GCSpropagate && Writable(g, o, t)
    ensures Valid(g.(h := g.h[o := t], m := MadeWhite(g.m, o, g.cw)))
  {
    hide Common, PhaseOk, MadeWhite, Writable;
    WrittenCommon(g, o, t);
    WritableIs(g, o, t);
    WrittenPhase(g, o, t);
    WhitenValid(g.(h := g.h[o := t]), o);
  }
}
