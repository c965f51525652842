/** What a program does with threads and roots between two steps of the collector (lfunc.c, lgc.c, lstate.c) */
module GCThreads {
  // Open upvalues that a program makes and closes (luaF_findupval, luaF_close), finalizers that are called, and
  // roots that a program changes.

  import opened Basics
  import opened GCHeap
  import opened GCInvariant
  import opened GCSweep
  import opened GCUpvals
  import opened GCRoots
  import opened GCMutator
  import opened GCAlloc

  // ---- luaF_findupval ------------------------------------------------------------------------------------

  // A new open upvalue for a slot becomes the i-th of its thread.
  function Opened(g: Snap, th: Id, i: nat, slot: nat, u: Id): Snap
    requires th in g.h && g.h[th].Thread? && i <= |g.h[th].open|
  {
    var l := g.h[th].open;
    g.(h := WithOpen(g.h, th, l[..i] + [u] + l[i..])[u := UpOpen(th, slot)],
       m := g.m[u := Mark(White(g.cw), false, false, false)], uv := [u] + g.uv, k := g.k + {u})
  }

  // The place where the upvalue belongs
  ghost predicate OpensAt(h: Heap, th: Id, i: nat, slot: nat) {
    && th in h && h[th].Thread? && i <= |h[th].open| && slot < |h[th].stack|
    && (forall j :: 0 <= j < i ==> h[th].open[j] in h && h[h[th].open[j]].UpOpen? && h[h[th].open[j]].slot > slot)
    && (forall j :: i <= j < |h[th].open| ==>
        h[th].open[j] in h && h[h[th].open[j]].UpOpen? && h[h[th].open[j]].slot < slot)
  }

  lemma OpenedRefers(h: Heap, th: Id, open: seq<Id>, u: Id, slot: nat, y: Id, wk: bool, wv: bool, r: Id)
    requires y in h && u !in h
    ensures var h' := WithOpen(h, th, open)[u := UpOpen(th, slot)];
            Refers(h', h'[y], r) == Refers(h, h[y], r) && Holds(h', h'[y], wk, wv, r) == Holds(h, h[y], wk, wv, r)
  {
    OpenRefers(h, th, open, y, r);
    OtherRefers(WithOpen(h, th, open), u, UpOpen(th, slot), y, r);
  }

  lemma OtherRefers(h: Heap, u: Id, o: Obj, y: Id, r: Id)
    requires y in h && u !in h && !o.Thread?
    ensures Refers(h[u := o], h[y], r) == Refers(h, h[y], r)
  {
  }

  lemma OpenedIs(g: Snap, th: Id, i: nat, slot: nat, u: Id)
    requires th in g.h && g.h[th].Thread? && i <= |g.h[th].open| && u !in g.h && g.m.Keys == g.h.Keys
    ensures var g' := Opened(g, th, i, slot, u);
            && g'.m == g.m[u := Mark(White(g.cw), false, false, false)] && g'.h.Keys == g.h.Keys + {u}
              && g'.m.Keys == g'.h.Keys
            && g'.h[u] == UpOpen(th, slot) && (forall x :: x in g.h && x != th ==> g'.h[x] == g.h[x])
            && g'.h[th] == g.h[th].(open := g.h[th].open[..i] + [u] + g.h[th].open[i..]) && u != th
            && g' == g.(h := g'.h, m := g'.m, uv := [u] + g.uv, k := g.k + {u}) && RootList(g') == RootList(g)
              && Roots(g') == Roots(g)
  {
  }

  lemma OpenedLive(g: Snap, th: Id, i: nat, slot: nat, u: Id)
    requires OpensAt(g.h, th, i, slot) && u !in g.h && Usable(g, th) && g.m.Keys == g.h.Keys
    requires Live(g.h, g.m, g.cw) && Closed(g.h, g.k)
    ensures var g' := Opened(g, th, i, slot, u);
            Live(g'.h, g'.m, g'.cw) && Closed(g'.h, g'.k)
  {
    hide Refers, Opened, OpensAt, Live, Closed;
    OpensAtIs(g.h, th, i, slot);
    var g' := Opened(g, th, i, slot, u);
    forall y, r | y in g'.h && Refers(g'.h, g'.h[y], r)
      ensures !Dead(g'.m, g'.cw, y) ==> r in g'.h && !Dead(g'.m, g'.cw, r)
      ensures y in g'.k ==> r in g'.k
    {
      OpenedEdge(g, th, i, slot, u, y, r);
      EdgeLive(g.h, g.m, g.cw, g.k, if y == u then th else y, r);
      OpenedIs(g, th, i, slot, u);
    }
    LiveIs(g'.h, g'.m, g'.cw, g'.k);
  }

  lemma OpenedEdge(g: Snap, th: Id, i: nat, slot: nat, u: Id, y: Id, r: Id)
    requires th in g.h && g.h[th].Thread? && i <= |g.h[th].open| && slot < |g.h[th].stack| && u !in g.h
      && g.m.Keys == g.h.Keys
    requires var h' := Opened(g, th, i, slot, u).h;
             y in h' && Refers(h', h'[y], r)
    ensures y == u || y in g.h
    ensures Refers(g.h, g.h[if y == u then th else y], r)
  {
    hide Refers, Holds, Opened;
    OpenedIs(g, th, i, slot, u);
    if y == u {
      SlotRefers(g.h, th, slot, Opened(g, th, i, slot, u).h, r);
    } else {
      OpenedSame(g, th, i, slot, u, y, false, false, r);
    }
  }

  lemma OpenedSame(g: Snap, th: Id, i: nat, slot: nat, u: Id, y: Id, wk: bool, wv: bool, r: Id)
    requires th in g.h && g.h[th].Thread? && i <= |g.h[th].open| && u !in g.h && y in g.h
    ensures var h' := Opened(g, th, i, slot, u).h;
            y in h' && Refers(h', h'[y], r) == Refers(g.h, g.h[y], r)
              && Holds(h', h'[y], wk, wv, r) == Holds(g.h, g.h[y], wk, wv, r)
  {
    hide Refers, Holds;
    OpenedRefers(g.h, th, g.h[th].open[..i] + [u] + g.h[th].open[i..], u, slot, y, wk, wv, r);
  }

  lemma SlotRefers(h: Heap, th: Id, slot: nat, h': Heap, r: Id)
    requires th in h && h[th].Thread? && slot < |h[th].stack| && th in h' && h'[th].Thread?
      && h'[th].stack == h[th].stack
    requires Refers(h', UpOpen(th, slot), r)
    ensures Refers(h, h[th], r)
  {
    assert h[th].stack[slot] == Ref(r);
  }

  lemma InsertedAt(l: seq<Id>, i: nat, u: Id)
    requires i <= |l|
    ensures var r := l[..i] + [u] + l[i..];
            |r| == |l| + 1 && r[i] == u && (forall j :: 0 <= j < i ==> r[j] == l[j])
              && (forall j :: i < j < |r| ==> r[j] == l[j - 1])
            && (forall x :: x in r <==> x in l || x == u)
  {
    assert l == l[..i] + l[i..];
  }

  lemma OpenedList(h: Heap, th: Id, i: nat, slot: nat, u: Id, h': Heap)
    requires OpensAt(h, th, i, slot) && u !in h && OpenList(h, th, h[th].open)
    requires forall x :: x in h && x != th ==> x in h' && h'[x] == h[x]
    requires u in h' && h'[u] == UpOpen(th, slot)
    ensures OpenList(h', th, h[th].open[..i] + [u] + h[th].open[i..])
  {
    var l := h[th].open;
    InsertedAt(l, i, u);
    var r := l[..i] + [u] + l[i..];
    forall a, b | 0 <= a < b < |r|
      ensures h'[r[a]].slot > h'[r[b]].slot
    {
      if b < i { assert h[l[a]].slot > h[l[b]].slot; }
      else if b == i { assert l[a] in l; }
      else if a == i { assert l[b - 1] in l; }
      else if a < i { assert l[a] in l && l[b - 1] in l; }
      else { assert h[l[a - 1]].slot > h[l[b - 1]].slot && l[a - 1] in l && l[b - 1] in l; }
    }
  }

  lemma OpenedOpenLists(g: Snap, th: Id, i: nat, slot: nat, u: Id)
    requires OpensAt(g.h, th, i, slot) && u !in g.h && OpenLists(g.h) && g.m.Keys == g.h.Keys
    ensures OpenLists(Opened(g, th, i, slot, u).h)
  {
    hide OpenList, OpensAt, Opened;
    OpensAtIs(g.h, th, i, slot);
    var h' := Opened(g, th, i, slot, u).h;
    OpenedIs(g, th, i, slot, u);
    forall t | t in h' && h'[t].Thread?
      ensures OpenList(h', t, h'[t].open)
    {
      assert OpenList(g.h, t, g.h[t].open);
      if t == th { OpenedList(g.h, th, i, slot, u, h'); } else { OpenListSame(g.h, t, th, h'); }
    }
  }

  lemma OpenListSame(h: Heap, t: Id, th: Id, h': Heap)
    requires t in h && h[t].Thread? && OpenList(h, t, h[t].open) && th in h && h[th].Thread?
    requires forall x :: x in h && x != th ==> x in h' && h'[x] == h[x]
    ensures OpenList(h', t, h[t].open)
  {
  }

  lemma OpensAtIs(h: Heap, th: Id, i: nat, slot: nat)
    requires OpensAt(h, th, i, slot)
    ensures th in h && h[th].Thread? && i <= |h[th].open| && slot < |h[th].stack|
  {
  }

  lemma OpenedHomes(g: Snap, th: Id, i: nat, slot: nat, u: Id)
    requires th in g.h && g.h[th].Thread? && i <= |g.h[th].open| && slot < |g.h[th].stack|
    requires u !in g.h && g.m.Keys == g.h.Keys && UpvalHomes(g.h) && UvList(g.h, g.uv)
    ensures UpvalHomes(Opened(g, th, i, slot, u).h) && UvList(Opened(g, th, i, slot, u).h, Opened(g, th, i, slot, u).uv)
  {
    OpenedIs(g, th, i, slot, u);
    InsertedAt(g.h[th].open, i, u);
    hide Opened;
    NoDupCons(u, g.uv);
  }

  lemma OpenedStrings(g: Snap, th: Id, i: nat, slot: nat, u: Id)
    requires th in g.h && g.h[th].Thread? && i <= |g.h[th].open| && u !in g.h && g.m.Keys == g.h.Keys
      && Strings(g.h, g.strt)
    ensures Strings(Opened(g, th, i, slot, u).h, g.strt)
  {
    OpenedIs(g, th, i, slot, u);
    hide Opened;
  }

  lemma OpenedPlaced(g: Snap, th: Id, i: nat, slot: nat, u: Id)
    requires th in g.h && g.h[th].Thread? && i <= |g.h[th].open| && u !in g.h && g.m.Keys == g.h.Keys
    requires Placed(g.h, g.m, RootList(g), g.tmu, g.strt)
    ensures var g' := Opened(g, th, i, slot, u);
            Placed(g'.h, g'.m, RootList(g'), g'.tmu, g'.strt)
  {
    hide Strings, Opened, RootList;
    OpenedIs(g, th, i, slot, u);
    OpenedStrings(g, th, i, slot, u);
  }

  lemma OpenedRest(g: Snap, th: Id, i: nat, slot: nat, u: Id)
    requires th in g.h && g.h[th].Thread? && i <= |g.h[th].open| && u !in g.h && g.m.Keys == g.h.Keys
    requires RootsLive(g) && Colors(g.h, g.m) && (forall x :: x in g.udata ==> x in g.h && g.h[x].Udata?)
    ensures var g' := Opened(g, th, i, slot, u);
            RootsLive(g') && Colors(g'.h, g'.m) && (forall x :: x in g'.udata ==> x in g'.h && g'.h[x].Udata?)
  {
    hide Opened, RootList, Roots;
    OpenedIs(g, th, i, slot, u);
    assert ColorOk(g.h[th], g.m[th].color);
  }

  lemma OpenedCovers(g: Snap, th: Id, i: nat, slot: nat, u: Id)
    requires th in g.h && g.h[th].Thread? && i <= |g.h[th].open| && u !in g.h && g.m.Keys == g.h.Keys
    requires Covers(g.h, g.m, g.k, Roots(g)) && Closed(Opened(g, th, i, slot, u).h, Opened(g, th, i, slot, u).k)
    ensures var g' := Opened(g, th, i, slot, u);
            Covers(g'.h, g'.m, g'.k, Roots(g'))
  {
    hide Closed, Opened, RootList, Roots;
    OpenedIs(g, th, i, slot, u);
  }

  lemma OpenedCommon(g: Snap, th: Id, i: nat, slot: nat, u: Id)
    requires Common(g) && OpensAt(g.h, th, i, slot) && u !in g.h && Usable(g, th)
    ensures Common(Opened(g, th, i, slot, u))
  {
    hide UpvalHomes, OpenLists, UvList, Placed, Colors, Closed, Live, Covers, RootsLive, OpensAt, Opened,
      RootList, Roots, Usable;
    OpensAtIs(g.h, th, i, slot);
    OpenedIs(g, th, i, slot, u);
    CoversClosed(g.h, g.m, g.k, Roots(g));
    OpenedLive(g, th, i, slot, u);
    OpenedOpenLists(g, th, i, slot, u);
    OpenedHomes(g, th, i, slot, u);
    OpenedPlaced(g, th, i, slot, u);
    OpenedRest(g, th, i, slot, u);
    OpenedCovers(g, th, i, slot, u);
  }

  lemma OpenedTri(g: Snap, th: Id, i: nat, slot: nat, u: Id, todo: set<Id>)
    requires th in g.h && g.h[th].Thread? && i <= |g.h[th].open| && u !in g.h && g.m.Keys == g.h.Keys
      && Tri(g.h, g.m, todo, true)
    ensures Tri(Opened(g, th, i, slot, u).h, Opened(g, th, i, slot, u).m, todo, true)
  {
    hide Holds, Opened;
    var g' := Opened(g, th, i, slot, u);
    OpenedIs(g, th, i, slot, u);
    forall x | x in g'.h && Nonwhite(g'.m, x) && x !in todo && !(true && g'.h[x].UpOpen?)
      ensures Traced(g'.h, g'.m, x)
    {
      assert x != u && Traced(g.h, g.m, x);
      forall r | Holds(g'.h, g'.h[x], KeysWeak(g'.m[x]), ValuesWeak(g'.m[x]), r)
        ensures Nonwhite(g'.m, r)
      {
        OpenedSame(g, th, i, slot, u, x, KeysWeak(g.m[x]), ValuesWeak(g.m[x]), r);
        assert Nonwhite(g.m, r);
      }
    }
  }

  lemma OpenedTraces(g: Snap, th: Id, i: nat, slot: nat, u: Id)
    requires th in g.h && g.h[th].Thread? && i <= |g.h[th].open| && u !in g.h && g.m.Keys == g.h.Keys
      && Traces(g, Postponed(g), true)
    ensures Traces(Opened(g, th, i, slot, u), Postponed(Opened(g, th, i, slot, u)), true)
  {
    hide Tri, Opened, RootList, Roots, Lists, NoDead;
    OpenedTri(g, th, i, slot, u, Postponed(g) + Listed(g.gray));
    OpenedIs(g, th, i, slot, u);
    OpenedMarks(g, th, i, slot, u);
  }

  lemma OpenedMarks(g: Snap, th: Id, i: nat, slot: nat, u: Id)
    requires th in g.h && g.h[th].Thread? && i <= |g.h[th].open| && u !in g.h && g.m.Keys == g.h.Keys
    requires NoDead(g.h, g.m, g.cw) && Lists(g.h, g.m, g.gray, g.again, g.weak)
    ensures var g' := Opened(g, th, i, slot, u);
            NoDead(g'.h, g'.m, g'.cw) && Lists(g'.h, g'.m, g'.gray, g'.again, g'.weak)
  {
    hide Opened, RootList, Roots;
    OpenedIs(g, th, i, slot, u);
  }

  lemma OpenedSwept(g: Snap, th: Id, i: nat, slot: nat, u: Id)
    requires th in g.h && g.h[th].Thread? && i <= |g.h[th].open| && u !in g.h && g.m.Keys == g.h.Keys
    requires RootsSwept(g.h, g.m, g.cw, RootList(g), g.sweepgc)
    ensures var g' := Opened(g, th, i, slot, u);
            RootsSwept(g'.h, g'.m, g'.cw, RootList(g'), g'.sweepgc)
  {
    var g' := Opened(g, th, i, slot, u);
    OpenedIs(g, th, i, slot, u);
    InsertedAt(g.h[th].open, i, u);
    hide Opened, RootList;
    forall x | x in RootList(g)[..g.sweepgc]
      ensures Swept(g'.h, g'.m, g'.cw, x)
    {
      assert Swept(g.h, g.m, g.cw, x);
    }
  }

  lemma OpenedPhase(g: Snap, th: Id, i: nat, slot: nat, u: Id)
    requires th in g.h && g.h[th].Thread? && i <= |g.h[th].open| && u !in g.h && g.m.Keys == g.h.Keys && PhaseOk(g)
    ensures PhaseOk(Opened(g, th, i, slot, u))
  {
    hide Opened, RootList, Roots, Traces, RootsSwept;
    OpenedIs(g, th, i, slot, u);
    if g.phase == GCSpropagate { OpenedTraces(g, th, i, slot, u); }
    else if g.phase == GCSsweep { OpenedSwept(g, th, i, slot, u); }
  }

  /** luaF_findupval when no upvalue is open for the slot */
  lemma OpenedValid(g: Snap, th: Id, i: nat, slot: nat, u: Id)
    requires Valid(g) && OpensAt(g.h, th, i, slot) && u !in g.h && Usable(g, th)
    ensures Valid(Opened(g, th, i, slot, u)) && Usable(Opened(g, th, i, slot, u), u)
  {
    hide Common, PhaseOk, OpensAt;
    OpensAtIs(g.h, th, i, slot);
    CommonLive(g);
    OpenedCommon(g, th, i, slot, u);
    OpenedPhase(g, th, i, slot, u);
    OpenedIs(g, th, i, slot, u);
  }

  // An open upvalue refers to what its thread refers to: it may be found dead and used again.
  lemma OpenUsable(g: Snap, th: Id, u: Id, r: Id)
    requires Valid(g) && Usable(g, th) && g.h[th].Thread? && u in g.h[th].open && u in g.h && Refers(g.h, g.h[u], r)
    ensures Usable(g, r)
  {
    hide PhaseOk, Placed, Colors, RootsLive;
    assert OpenList(g.h, th, g.h[th].open);
    SlotRefers(g.h, th, g.h[u].slot, g.h, r);
    CoversClosed(g.h, g.m, g.k, Roots(g));
  }

  // ---- luaF_close ----------------------------------------------------------------------------------------

  lemma TopOpen(g: Snap, th: Id)
    requires Common(g) && th in g.h && g.h[th].Thread? && g.h[th].open != []
    ensures var u := g.h[th].open[0];
            && u in g.h && u in g.m && g.h[u].UpOpen? && g.h[u].th == th && u != th && OpenLists(g.h)
              && !g.m[u].color.Black?
            && g.h[u].slot < |g.h[th].stack| && g.m.Keys == g.h.Keys && u !in g.tmu
  {
    hide Live, Covers, RootsLive, Strings;
    UpvalOpen(g.h, th, 0);
    assert ColorOk(g.h[g.h[th].open[0]], g.m[g.h[th].open[0]].color);
  }

  // A dead one is freed; there are dead objects during the sweep only.
  lemma TopFreed(g: Snap, th: Id)
    requires Valid(g) && th in g.h && g.h[th].Thread? && g.h[th].open != [] && Dead(g.m, g.cw, g.h[th].open[0])
    ensures Valid(UpvalFreed(g, th, 0)) && (g.phase == GCSsweepstring || g.phase == GCSsweep)
  {
    TopOpen(g, th);
    hide Common, StringsSwept, RootsSwept, Condemned, UpvalFreed;
    if g.phase == GCSsweep {
      OpenGoneValid(g, th, 0);
    } else {
      assert g.phase == GCSsweepstring;
      UpvalFreedCommon(g, th, 0);
      FreedSame(g, th, 0);
      FreedStringsSwept(g.m, g.cw, g.strt, g.sweepstr, g.h[th].open[0]);
      FreedCondemned(g, th, 0);
    }
  }

  lemma ShutTri(g: Snap, th: Id, todo: set<Id>)
    requires OpenLists(g.h) && th in g.h && g.h[th].Thread? && g.h[th].open != [] && Tri(g.h, g.m, todo, true)
    ensures Tri(UpvalShut(g, th).h, g.m, todo + {g.h[th].open[0]}, true)
  {
    hide UpvalShut, Holds, Refers;
    ShutSame(g, th);
    var h', u := UpvalShut(g, th).h, g.h[th].open[0];
    forall x | x in h' && Nonwhite(g.m, x) && x !in todo + {u} && !(true && h'[x].UpOpen?)
      ensures Traced(h', g.m, x)
    {
      assert Traced(g.h, g.m, x);
      forall r | Holds(h', h'[x], KeysWeak(g.m[x]), ValuesWeak(g.m[x]), r)
        ensures Nonwhite(g.m, r)
      {
        ShutRefers(g, th, x, KeysWeak(g.m[x]), ValuesWeak(g.m[x]), r);
      }
    }
  }

  lemma ShutLists(g: Snap, th: Id)
    requires OpenLists(g.h) && th in g.h && g.h[th].Thread? && g.h[th].open != []
      && Lists(g.h, g.m, g.gray, g.again, g.weak)
    requires g.h[th].open[0] in g.m && !g.m[g.h[th].open[0]].color.Gray?
    ensures Lists(UpvalShut(g, th).h, g.m, g.gray, g.again, g.weak)
  {
    hide UpvalShut;
    ShutSame(g, th);
  }

  // During the mark phase the closed upvalue may refer to a white object.
  lemma ShutTracesBut(g: Snap, th: Id)
    requires Common(g) && g.phase == GCSpropagate && NoDead(g.h, g.m, g.cw) && NonwhiteIn(g.h, g.m, g.k)
    requires Lists(g.h, g.m, g.gray, g.again, g.weak) && Tri(g.h, g.m, Postponed(g) + Listed(g.gray), true)
    requires Nonwhite(g.m, g.main) && Nonwhite(g.m, g.reg)
    requires th in g.h && g.h[th].Thread? && g.h[th].open != [] && g.h[th].open[0] in g.m
      && !g.m[g.h[th].open[0]].color.Gray?
    ensures TracesBut(UpvalShut(g, th), g.h[th].open[0])
  {
    hide Common, UpvalShut, Tri, Lists;
    TopOpen2(g, th);
    ShutSame(g, th);
    ShutTri(g, th, Postponed(g) + Listed(g.gray));
    ShutLists(g, th);
  }

  lemma TopOpen2(g: Snap, th: Id)
    requires Common(g) && th in g.h && g.h[th].Thread? && g.h[th].open != []
    ensures OpenLists(g.h)
  {
  }

  lemma ShutStringPhase(g: Snap, th: Id)
    requires PhaseOk(g) && OpenLists(g.h) && th in g.h && g.h[th].Thread? && g.h[th].open != []
    requires g.phase == GCSpause || g.phase == GCSfinalize || g.phase == GCSsweepstring
    ensures PhaseOk(UpvalShut(g, th))
  {
    ShutSame(g, th);
    if g.phase == GCSsweepstring { ShutSweepAt(g, th); }
    hide UpvalShut;
  }

  lemma ShutSweepAt(g: Snap, th: Id)
    requires th in g.h && g.h[th].Thread? && g.h[th].open != [] && g.sweepgc == 0
    ensures UpvalShut(g, th).sweepgc == 0
  {
  }

  /** A white open upvalue is closed. */
  lemma WhiteShut(g: Snap, th: Id)
    requires Valid(g) && th in g.h && g.h[th].Thread? && g.h[th].open != []
    requires g.h[th].open[0] in g.m && g.m[g.h[th].open[0]].color == White(g.cw)
    ensures Valid(UpvalShut(g, th))
  {
    hide Common, UpvalShut, Tri, Lists, NoDead, NonwhiteIn, RootsSwept, StringsSwept, Condemned, Idle, TracesBut;
    TopOpen(g, th);
    ShutCommon(g, th);
    ShutSame(g, th);
    if g.phase == GCSpropagate {
      ShutTracesBut(g, th);
      TracesAgain(UpvalShut(g, th), g.h[th].open[0]);
    } else if g.phase == GCSsweep {
      ShutInSweep(g, th);
    } else {
      ShutStringPhase(g, th);
    }
  }

  /** Between two cycles no open upvalue is gray. */
  lemma GrayOpen(g: Snap, th: Id)
    requires Valid(g) && th in g.h && g.h[th].Thread? && g.h[th].open != []
    requires g.h[th].open[0] in g.m && g.m[g.h[th].open[0]].color.Gray?
    ensures g.phase != GCSpause && g.phase != GCSfinalize && !Dead(g.m, g.cw, g.h[th].open[0])
  {
    hide Common, Traces, StringsSwept, RootsSwept, Condemned;
    TopOpen(g, th);
    NotIdle(g.h, g.m, g.cw, g.tmu, g.h[th].open[0]);
  }

  lemma NotIdle(h: Heap, m: Marking, cw: bool, tmu: seq<Id>, u: Id)
    requires u in h && u in m && m[u].color.Gray? && u !in tmu
    ensures !Idle(h, m, cw, tmu)
  {
  }

  // luaC_linkupval during the mark phase: a gray upvalue becomes black when it is closed.
  function Blackened(g: Snap, u: Id): Snap {
    if u in g.m then g.(m := g.m[u := g.m[u].(color := Black)]) else g
  }

  lemma BlackenedMarks(g: Snap, u: Id)
    requires u in g.m && g.m[u].color.Gray?
    ensures var m' := Blackened(g, u).m;
            && m'.Keys == g.m.Keys && (forall x :: Dead(m', g.cw, x) <==> Dead(g.m, g.cw, x))
              && (forall x :: Nonwhite(m', x) <==> Nonwhite(g.m, x))
            && (forall x :: x in g.m ==> m'[x].finalized == g.m[x].finalized)
              && (forall x :: x in g.m && x != u ==> m'[x] == g.m[x])
            && m'[u].color.Black?
  {
  }

  lemma BlackenedCommon(g: Snap, u: Id)
    requires Common(g) && u in g.m && u in g.h && g.h[u].UpClosed? && g.m[u].color.Gray?
    ensures Common(Blackened(g, u))
  {
    hide Upvalues, Placed, Closed, Live, Covers, RootsLive, Dead;
    var g' := Blackened(g, u);
    BlackenedMarks(g, u);
    assert Live(g'.h, g'.m, g'.cw) by { LiveSame(g.h, g.m, g'.m, g.cw); }
    hide Blackened;
    FinalizedPlaced(g.h, g.m, g'.m, RootList(g), g.tmu, g.strt);
    CoversClosed(g.h, g.m, g.k, Roots(g));
    FinalizedCovers(g.h, g.h, g.m, g'.m, g.k, Roots(g));
    RootsSame(g, g'.m);
    assert Colors(g'.h, g'.m) by {
      forall x | x in g.h
        ensures x in g'.m && ColorOk(g'.h[x], g'.m[x].color)
      {
        assert ColorOk(g.h[x], g.m[x].color);
      }
    }
  }

  lemma LiveSame(h: Heap, m: Marking, m': Marking, cw: bool)
    requires Live(h, m, cw) && forall x :: Dead(m', cw, x) <==> Dead(m, cw, x)
    ensures Live(h, m', cw)
  {
    hide Refers, Dead;
  }

  lemma GrayShut(g: Snap, th: Id)
    requires Valid(g) && g.phase == GCSpropagate && th in g.h && g.h[th].Thread? && g.h[th].open != []
    requires g.h[th].open[0] in g.m && g.m[g.h[th].open[0]].color.Gray?
    ensures var g1, u := Blackened(UpvalShut(g, th), g.h[th].open[0]), g.h[th].open[0];
            Common(g1) && TracesBut(g1, u)
  {
    hide Common, UpvalShut, Tri, Lists, NoDead, NonwhiteIn, TracesBut, Blackened;
    var u := g.h[th].open[0];
    TopOpen(g, th);
    ShutCommon(g, th);
    ShutSame(g, th);
    BlackenedCommon(UpvalShut(g, th), u);
    ShutTri(g, th, Postponed(g) + Listed(g.gray));
    BlackenedTraces(g, th);
  }

  lemma BlackenedTraces(g: Snap, th: Id)
    requires Valid(g) && g.phase == GCSpropagate && OpenLists(g.h) && th in g.h && g.h[th].Thread? && g.h[th].open != []
    requires g.h[th].open[0] in g.m && g.m[g.h[th].open[0]].color.Gray?
    requires Tri(UpvalShut(g, th).h, g.m, Postponed(g) + Listed(g.gray) + {g.h[th].open[0]}, true)
    ensures var g1, u := Blackened(UpvalShut(g, th), g.h[th].open[0]), g.h[th].open[0];
            TracesBut(g1, u)
  {
    hide Common, UpvalShut, Tri, Lists, Blackened;
    var u := g.h[th].open[0];
    var s := UpvalShut(g, th);
    var g1 := Blackened(s, u);
    ShutSame(g, th);
    BlackenedMarks(s, u);
    BlackenedSame(s, u);
    BlackenedLists(g.h, g.m, g.gray, g.again, g.weak, th, u, s.h, g1.m);
    BlackenedTri(s.h, g.m, Postponed(g) + Listed(g.gray) + {u}, u, g1.m);
  }

  lemma BlackenedSame(g: Snap, u: Id)
    ensures Blackened(g, u) == g.(m := Blackened(g, u).m) && Postponed(Blackened(g, u)) == Postponed(g)
  {
  }

  lemma BlackenedTri(h: Heap, m: Marking, todo: set<Id>, u: Id, m': Marking)
    requires Tri(h, m, todo, true) && u in todo && (forall x :: Nonwhite(m', x) <==> Nonwhite(m, x))
    requires m'.Keys == m.Keys && (forall x :: x in m && x != u ==> m'[x] == m[x])
    ensures Tri(h, m', todo, true)
  {
    forall x | x in h && Nonwhite(m', x) && x !in todo && !(true && h[x].UpOpen?)
      ensures Traced(h, m', x)
    {
      assert Traced(h, m, x);
      TracedSame(h, m, m', x);
    }
  }

  lemma BlackenedLists(h: Heap, m: Marking, gray: seq<Id>, again: seq<Id>, weak: seq<Id>, th: Id, u: Id, h': Heap,
    m': Marking)
    requires Lists(h, m, gray, again, weak) && h'.Keys == h.Keys && u in h && h[u].UpOpen? && th in h && h[th].Thread?
      && h'[th].Thread?
    requires forall x :: x in h && x != u && x != th ==> h'[x] == h[x]
    requires m'.Keys == m.Keys && u in m && m'[u].color.Black? && (forall x :: x in m && x != u ==> m'[x] == m[x])
    ensures Lists(h', m', gray, again, weak)
  {
  }

  lemma ClosedTraced(h: Heap, m: Marking, u: Id)
    requires u in h && u in m && h[u].UpClosed? && m[u].color.Black? && (h[u].v.Ref? ==> Nonwhite(m, h[u].v.id))
    ensures Traced(h, m, u)
  {
  }

  // What reallymarkobject needs, and what it achieves for a black upvalue
  lemma BlackReady(g1: Snap, u: Id)
    requires Common(g1) && TracesBut(g1, u) && u in g1.h && g1.h[u].UpClosed? && u in g1.k
    ensures g1.m.Keys == g1.h.Keys && Complete(g1.h) && MarkClosed(g1.h, g1.k)
    ensures g1.h[u].v.Ref? ==> g1.h[u].v.id in g1.h && g1.h[u].v.id in g1.k
  {
    hide Upvalues, Placed, Colors, RootsLive, Lists, Tri;
    LiveComplete(g1.h, g1.m, g1.cw);
    CoversClosed(g1.h, g1.m, g1.k, Roots(g1));
    RefsClosed(g1.h, g1.k);
    UpvalInHeap(g1.h, u, g1.k);
  }

  lemma BlackMarked(g1: Snap, u: Id, g': Snap)
    requires Common(g1) && TracesBut(g1, u) && u in g1.h && g1.h[u].UpClosed? && u in g1.m && g1.m[u].color.Black?
    requires g' == g1.(m := g'.m, gray := g'.gray) && Marked(g1.h, g1.m, g1.gray, g'.m, g'.gray, g1.k)
    requires g1.h[u].v.Ref? ==> Nonwhite(g'.m, g1.h[u].v.id)
    ensures Valid(g')
  {
    hide Common, TracesBut, Marked, Lists, Tri, PhaseOk;
    MarkedAt(g1.h, g1.m, g1.gray, g'.m, g'.gray, g1.k, u);
    ClosedTraced(g'.h, g'.m, u);
    ForwardMarkedTraces(g1, g', u);
  }

  // A gray upvalue is covered by the cycle.
  lemma GrayCovered(g: Snap, u: Id)
    requires Valid(g) && g.phase == GCSpropagate && u in g.h && u in g.m && g.m[u].color.Gray?
    ensures u in g.k
  {
    hide Common, Lists, Tri, NoDead;
  }

  // ---- finalizers ----------------------------------------------------------------------------------------

  // The first userdata that waits for its finalizer goes back to the root list.
  function Restored(g: Snap): Snap
    requires g.tmu != []
  {
    g.(tmu := g.tmu[1..], udata := [g.tmu[0]] + g.udata, m := MadeWhite(g.m, g.tmu[0], g.cw))
  }

  lemma RestoredPlaced(h: Heap, m: Marking, a: seq<Id>, b: seq<Id>, tmu: seq<Id>, strt: seq<seq<Id>>)
    requires Placed(h, m, a + b, tmu, strt) && tmu != []
    ensures Placed(h, m, a + ([tmu[0]] + b), tmu[1..], strt)
  {
    hide Strings;
    assert tmu[0] in tmu && tmu == [tmu[0]] + tmu[1..];
    MiddleNoDup(a, b, tmu[0]);
    NoDupTail(tmu);
  }

  lemma RestoredRoots(g: Snap)
    requires RootsLive(g) && g.tmu != []
    ensures Roots(g.(tmu := g.tmu[1..], udata := [g.tmu[0]] + g.udata)) <= Roots(g)
    ensures RootsLive(g.(tmu := g.tmu[1..], udata := [g.tmu[0]] + g.udata))
    ensures g.tmu[0] in Roots(g)
  {
    assert g.tmu[0] in g.tmu && g.tmu == [g.tmu[0]] + g.tmu[1..];
  }

  lemma RestoredIdle(g: Snap)
    requires Idle(g.h, g.m, g.cw, g.tmu) && g.tmu != []
    ensures Idle(g.h, Restored(g).m, g.cw, g.tmu[1..])
  {
    assert g.tmu == [g.tmu[0]] + g.tmu[1..];
  }

  /** GCTM: the userdata is white and in the root list, and its finalizer will not be called again. */
  lemma RestoredValid(g: Snap)
    requires Valid(g) && g.phase == GCSfinalize && g.tmu != []
    ensures Valid(Restored(g)) && Usable(Restored(g), g.tmu[0]) && g.tmu[0] in g.m && g.m[g.tmu[0]].finalized
      && g.h[g.tmu[0]].Udata?
  {
    hide Upvalues, Placed, Colors, Live, Covers, RootsLive, Idle, MadeWhite;
    var u := g.tmu[0];
    var g1 := g.(tmu := g.tmu[1..], udata := [u] + g.udata);
    RestoredPlaced(g.h, g.m, g.rootgc, g.udata, g.tmu, g.strt);
    RestoredRoots(g);
    CoversClosed(g.h, g.m, g.k, Roots(g));
    CoversMore(g.h, g.m, g.k, Roots(g), Roots(g1));
    FirstTmu(g);
    assert Common(g1);
    WhitenCommon(g1, u);
    RestoredIdle(g);
    RestoredUsable(g);
  }

  lemma FirstTmu(g: Snap)
    requires Placed(g.h, g.m, RootList(g), g.tmu, g.strt) && g.tmu != [] && RootsLive(g)
    ensures var u := g.tmu[0];
            u in g.h && g.h[u].Udata? && u in g.m && g.m[u].finalized && u in Roots(g) && !Dead(g.m, g.cw, u)
  {
    assert g.tmu[0] in g.tmu;
    assert g.tmu[0] in Roots(g);
  }

  lemma RestoredUsable(g: Snap)
    requires g.tmu != [] && g.tmu[0] in g.h && g.tmu[0] in g.m && g.tmu[0] in g.k
    ensures Usable(Restored(g), g.tmu[0])
  {
  }

  // Values are pushed onto the stack of a thread.
  lemma PushedWritable(g: Snap, th: Id, vs: seq<Value>)
    requires Valid(g) && Usable(g, th) && g.h[th].Thread? && forall v :: v in vs && v.Ref? ==> Usable(g, v.id)
    ensures Writable(g, th, g.h[th].(stack := g.h[th].stack + vs))
  {
    hide PhaseOk, Placed, Colors, RootsLive;
    var t := g.h[th].(stack := g.h[th].stack + vs);
    CoversClosed(g.h, g.m, g.k, Roots(g));
    forall r | Refers(g.h[th := t], t, r)
      ensures Usable(g, r)
    {
      if Ref(r) !in vs { assert Refers(g.h, g.h[th], r); EdgeLive(g.h, g.m, g.cw, g.k, th, r); }
    }
    assert OpenList(g.h, th, g.h[th].open);
  }

  // ---- the roots -----------------------------------------------------------------------------------------

  /** A program may change the metatables of the basic types and switch to another thread without a barrier. */
  lemma RootsChanged(g: Snap, run: Id, mt: map<nat, Id>)
    requires Valid(g) && Usable(g, run) && g.h[run].Thread?
    requires forall i :: i in mt ==> i < NUM_TAGS && (Usable(g, mt[i]) || (i in g.mt && mt[i] == g.mt[i]))
    ensures Valid(g.(run := run, mt := mt))
  {
    hide Upvalues, Placed, Colors, Live;
    var g' := g.(run := run, mt := mt);
    CoversClosed(g.h, g.m, g.k, Roots(g));
    RootsChangedLive(g, run, mt);
    ChangedPhase(g, run, mt);
    CoversMore(g.h, g.m, g.k, Roots(g), Roots(g'));
  }

  lemma RootsChangedLive(g: Snap, run: Id, mt: map<nat, Id>)
    requires RootsLive(g) && Roots(g) <= g.k && Usable(g, run) && g.h[run].Thread?
    requires forall i :: i in mt ==> i < NUM_TAGS && (Usable(g, mt[i]) || (i in g.mt && mt[i] == g.mt[i]))
    ensures RootsLive(g.(run := run, mt := mt)) && Roots(g.(run := run, mt := mt)) <= g.k
  {
    forall i | i in mt
      ensures Usable(g, mt[i])
    {
      if i in g.mt && mt[i] == g.mt[i] { assert g.mt[i] in g.mt.Values && g.mt[i] in Roots(g); }
    }
  }

  lemma ChangedPhase(g: Snap, run: Id, mt: map<nat, Id>)
    requires PhaseOk(g)
    ensures PhaseOk(g.(run := run, mt := mt))
  {
    var g' := g.(run := run, mt := mt);
    assert RootList(g') == RootList(g) && Postponed(g') == Postponed(g);
  }

  // ---- a full collection ---------------------------------------------------------------------------------

  // luaC_fullgc drops a cycle that has not come to its sweep: the sweep then only makes everything white.
  function Dropped(g: Snap): Snap {
    g.(sweepstr := 0, sweepgc := 0, gray := [], again := [], weak := [], phase := GCSsweepstring, k := g.h.Keys)
  }

  lemma DroppedValid(g: Snap)
    requires Valid(g) && (g.phase == GCSpause || g.phase == GCSpropagate)
    ensures Valid(Dropped(g))
  {
    hide Upvalues, Placed, Colors, Lists, Tri;
    LiveComplete(g.h, g.m, g.cw);
    assert RootsLive(Dropped(g)) && Roots(Dropped(g)) == Roots(g);
    assert RootList(Dropped(g)) == RootList(g);
  }

  lemma PauseValid(g: Snap)
    requires Valid(g) && g.phase == GCSfinalize
    ensures Valid(g.(phase := GCSpause))
  {
    hide Common, Idle;
    PhaseCommon(g, g.(phase := GCSpause));
  }

  // How far a cycle is from its end
  function Rank(p: Phase): nat {
    match p case GCSpropagate => 4 case GCSsweepstring => 3 case GCSsweep => 2 case GCSfinalize => 1 case GCSpause => 0
  }

  function Left(g: Snap): int {
    match g.phase
    case GCSpropagate => Work(g.m, g.gray)
    case GCSsweepstring => |g.strt| - g.sweepstr
    case GCSsweep => SweepWork(g)
    case GCSfinalize => |g.tmu|
    case GCSpause => 0
  }

  lemma LeftBound(g: Snap)
    requires Valid(g)
    ensures Left(g) >= 0
  {
    hide Common;
  }

  ghost predicate Nearer(g: Snap, g': Snap) {
    Rank(g'.phase) < Rank(g.phase) || (g'.phase == g.phase && Left(g') < Left(g))
  }

  lemma NearerIs(g: Snap, g': Snap)
    requires Nearer(g, g')
    ensures Rank(g'.phase) < Rank(g.phase) || (g'.phase == g.phase && Left(g') < Left(g))
  {
  }

  lemma InSweepValid(g: Snap)
    requires InSweep(g)
    ensures Valid(g) && g.phase == GCSsweep
  {
  }

  lemma InSweepIs(g: Snap)
    requires Valid(g) && g.phase == GCSsweep
    ensures InSweep(g)
  {
  }

  lemma ValidKeys(g: Snap)
    requires Valid(g)
    ensures g.m.Keys == g.h.Keys
  {
  }

  lemma SweepsKeys(g: Snap, g': Snap)
    requires Sweeps(g, g') && g.m.Keys == g.h.Keys
    ensures g'.h.Keys <= g.h.Keys && forall x :: x in g.h && x !in g'.h ==> Dead(g.m, g.cw, x)
  {
  }

  lemma RunUsable(g: Snap)
    requires Valid(g)
    ensures Usable(g, g.run) && g.run in g.h && g.h[g.run].Thread?
  {
    hide PhaseOk;
    RootUsable(g, g.run);
  }

  // The finalizer of a userdata is a value of its metatable.
  lemma FinalizerUsable(g: Snap, u: Id)
    requires Valid(g) && Usable(g, u) && g.h[u].Udata?
    ensures var f := Finalizer(g.h, g.h[u].mt);
            f.Ref? ==> Usable(g, f.id)
  {
    hide PhaseOk, Placed, Colors, RootsLive, Upvalues;
    var mt, f := g.h[u].mt, Finalizer(g.h, g.h[u].mt);
    if f.Ref? {
      CoversClosed(g.h, g.m, g.k, Roots(g));
      var t := g.h[mt.value];
      assert NodeRefers(t.nodes[t.gc.value], f.id);
      assert NodesRefer(t.nodes, f.id);
      EdgeLive(g.h, g.m, g.cw, g.k, u, mt.value);
      EdgeLive(g.h, g.m, g.cw, g.k, mt.value, f.id);
    }
  }

  lemma UsableIs(g: Snap, x: Id)
    requires Usable(g, x)
    ensures x in g.h && !Dead(g.m, g.cw, x) && x in g.k
  {
  }

  lemma WritableKey(g: Snap, o: Id, t: Obj)
    requires Writable(g, o, t)
    ensures o in g.h
  {
  }

  lemma AddsUsable(g: Snap, o: Id, t: Obj, v: Value)
    requires AddsOnly(g, o, t, v)
    ensures v.Ref? ==> v.id in g.h && v.id in g.k && Usable(g, v.id)
  {
  }

  ghost predicate SlotOpen(h: Heap, th: Id, slot: nat) {
    th in h && h[th].Thread? && exists u :: u in h[th].open && u in h && h[u].UpOpen? && h[u].slot == slot
  }

  // ---- objects that are found again ------------------------------------------------------------------------

  // An object that was not reached from the roots, and is used again: a string of the string table, or the
  // open upvalue of a stack slot.
  function Found(g: Snap, x: Id): Snap {
    g.(k := g.k + {x})
  }

  lemma FoundCovers(h: Heap, m: Marking, k: set<Id>, roots: set<Id>, x: Id)
    requires Covers(h, m, k, roots) && x in h && forall r :: Refers(h, h[x], r) ==> r in k
    ensures Covers(h, m, k + {x}, roots)
  {
    hide Refers;
  }

  /** It is white or marked, and stays so. */
  lemma FoundValid(g: Snap, x: Id)
    requires Valid(g) && x in g.h && !Dead(g.m, g.cw, x) && forall r :: Refers(g.h, g.h[x], r) ==> Usable(g, r)
    ensures Valid(Found(g, x)) && Usable(Found(g, x), x)
  {
    hide Upvalues, Placed, Colors, Live, Covers, RootsLive, Refers, Tri, Lists;
    FoundCovers(g.h, g.m, g.k, Roots(g), x);
    assert Roots(Found(g, x)) == Roots(g) && RootList(Found(g, x)) == RootList(g)
      && Postponed(Found(g, x)) == Postponed(g);
    FoundRoots(g, x);
  }

  lemma FoundRoots(g: Snap, x: Id)
    requires RootsLive(g)
    ensures RootsLive(Found(g, x))
  {
  }

  lemma StringRefs(g: Snap, x: Id)
    requires x in g.h && g.h[x].Str?
    ensures forall r :: Refers(g.h, g.h[x], r) ==> Usable(g, r)
  {
  }

  // What luaF_findupval finds in the list of open upvalues
  lemma OpenFits(g: Snap, th: Id)
    requires Valid(g) && th in g.h && g.h[th].Thread?
    ensures forall u :: u in g.h[th].open ==> u in g.h && u in g.m && g.h[u].UpOpen? && g.h[u].th == th && u != th
    ensures OpenList(g.h, th, g.h[th].open)
  {
    hide PhaseOk, Placed, Live, Covers, RootsLive, Colors;
  }

  lemma OpenRefs(g: Snap, th: Id, u: Id)
    requires Valid(g) && Usable(g, th) && g.h[th].Thread? && u in g.h[th].open
    ensures u in g.h && forall r :: Refers(g.h, g.h[u], r) ==> Usable(g, r)
  {
    OpenFits(g, th);
    hide Valid, Usable, Refers;
    forall r | Refers(g.h, g.h[u], r)
      ensures Usable(g, r)
    {
      OpenUsable(g, th, u, r);
    }
  }

  lemma NotOpen(g: Snap, th: Id, i: nat, slot: nat)
    requires Valid(g) && th in g.h && g.h[th].Thread? && i <= |g.h[th].open| && slot < |g.h[th].stack|
    requires forall j :: 0 <= j < i ==>
        g.h[th].open[j] in g.h && g.h[g.h[th].open[j]].UpOpen? && g.h[g.h[th].open[j]].slot > slot
    requires i < |g.h[th].open| ==>
        g.h[th].open[i] in g.h && g.h[g.h[th].open[i]].UpOpen? && g.h[g.h[th].open[i]].slot < slot
    ensures OpensAt(g.h, th, i, slot) && !SlotOpen(g.h, th, slot)
  {
    hide Valid, OpenList;
    OpenFits(g, th);
    BelowAll(g.h, th, g.h[th].open, i, slot);
    NoneAt(g.h, g.h[th].open, i, slot);
  }

  lemma NoneAt(h: Heap, l: seq<Id>, i: nat, slot: nat)
    requires i <= |l| && forall j :: 0 <= j < |l| ==> l[j] in h && h[l[j]].UpOpen?
    requires forall j :: 0 <= j < i ==> h[l[j]].slot > slot
    requires forall j :: i <= j < |l| ==> h[l[j]].slot < slot
    ensures forall u :: u in l && u in h && h[u].UpOpen? ==> h[u].slot != slot
  {
  }

  lemma BelowAll(h: Heap, th: Id, l: seq<Id>, i: nat, slot: nat)
    requires OpenList(h, th, l) && (i < |l| ==> l[i] in h && h[l[i]].UpOpen? && h[l[i]].slot < slot)
    ensures forall j :: 0 <= j < |l| ==> l[j] in h && h[l[j]].UpOpen?
    ensures forall j :: i <= j < |l| ==> h[l[j]].slot < slot
  {
    forall j | 0 <= j < |l|
      ensures l[j] in h && h[l[j]].UpOpen?
    {
      assert l[j] in l;
    }
  }

  // ---- what a program sees when upvalues are closed --------------------------------------------------------

  // Everything that is not dead is still there, upvalues have their values, and stacks are as they were.
  ghost predicate ValuesKept(g: Snap, g': Snap) {
    && g'.cw == g.cw && g'.phase == g.phase
    && forall x :: x in g.h && !Dead(g.m, g.cw, x) ==> x in g'.h && !Dead(g'.m, g.cw, x) && SameValue(g.h, g'.h, x)
  }

  lemma KeptTrans(g: Snap, g1: Snap, g2: Snap)
    requires ValuesKept(g, g1) && ValuesKept(g1, g2)
    ensures ValuesKept(g, g2)
  {
    forall x | x in g.h && !Dead(g.m, g.cw, x)
      ensures x in g2.h && !Dead(g2.m, g.cw, x) && SameValue(g.h, g2.h, x)
    {
      assert x in g1.h && !Dead(g1.m, g.cw, x) && SameValue(g.h, g1.h, x) && SameValue(g1.h, g2.h, x);
    }
  }

  lemma KeptRefl(g: Snap)
    ensures ValuesKept(g, g)
  {
  }

  lemma ShutKept(g: Snap, th: Id, g': Snap)
    requires OpenLists(g.h) && th in g.h && g.h[th].Thread? && g.h[th].open != []
    requires g'.h == UpvalShut(g, th).h && g'.cw == g.cw && g'.phase == g.phase
    requires forall x :: x in g.h && !Dead(g.m, g.cw, x) ==> !Dead(g'.m, g.cw, x)
    ensures ValuesKept(g, g')
  {
    hide UpvalShut, Dead;
    ShutSame(g, th);
    assert forall x :: x in g.h ==> SameValue(g.h, g'.h, x);
  }

  lemma FreedKept(g: Snap, th: Id)
    requires OpenLists(g.h) && th in g.h && g.h[th].Thread? && g.h[th].open != [] && Dead(g.m, g.cw, g.h[th].open[0])
    ensures ValuesKept(g, UpvalFreed(g, th, 0))
  {
    UpvalOpen(g.h, th, 0);
    var g' := UpvalFreed(g, th, 0);
    forall x | x in g.h && !Dead(g.m, g.cw, x)
      ensures x in g'.h && !Dead(g'.m, g.cw, x) && SameValue(g.h, g'.h, x)
    {
    }
  }

  lemma StillAlive(h: Heap, m: Marking, l: seq<Id>, m': Marking, l': seq<Id>, k: set<Id>, cw: bool)
    requires Marked(h, m, l, m', l', k)
    ensures forall x :: !Dead(m, cw, x) ==> !Dead(m', cw, x)
  {
  }

  lemma TopTop(g: Snap, th: Id)
    requires Valid(g) && th in g.h && g.h[th].Thread? && g.h[th].open != []
    ensures var u := g.h[th].open[0];
            u in g.h && u in g.m && g.h[u].UpOpen? && g.h[u].th == th && u != th && OpenLists(g.h)
              && !g.m[u].color.Black?
  {
    hide PhaseOk;
    TopOpen(g, th);
  }

  lemma TopGone(g: Snap, th: Id)
    requires th in g.h && g.h[th].Thread? && g.h[th].open != []
    ensures var u := g.h[th].open[0];
            UpvalFreed(g, th, 0) == g.(h := g.h[th := g.h[th].(open := g.h[th].open[1..])] - {u}, m := g.m - {u},
              uv := Unlink(g.uv, u))
  {
    assert g.h[th].open[..0] + g.h[th].open[1..] == g.h[th].open[1..];
  }

  lemma WhitenedIs(g: Snap, u: Id)
    requires u in g.m && !Dead(g.m, g.cw, u)
    ensures MadeWhite(g.m, u, g.cw) == g.m[u := g.m[u].(color := White(g.cw))]
    ensures forall x :: Dead(MadeWhite(g.m, u, g.cw), g.cw, x) <==> Dead(g.m, g.cw, x)
  {
  }

  lemma ShutWhitened(g: Snap, th: Id, m: Marking)
    requires th in g.h && g.h[th].Thread? && g.h[th].open != []
    ensures UpvalShut(g.(m := m), th) == UpvalShut(g, th).(m := m)
  {
  }

  // The open upvalues at a level and above are the first ones.
  lemma ClosedPart(h: Heap, th: Id, l: seq<Id>, n: nat, level: nat)
    requires OpenList(h, th, l) && n <= |l|
      && (forall j :: 0 <= j < n ==> l[j] in h && h[l[j]].UpOpen? && h[l[j]].slot >= level)
    requires n < |l| ==> l[n] in h && h[l[n]].UpOpen? && h[l[n]].slot < level
    ensures forall u :: u in l[n..] <==> u in l && u in h && h[u].UpOpen? && h[u].slot < level
  {
    BelowAll(h, th, l, n, level);
    assert l == l[..n] + l[n..];
    forall u | u in l && u in h && h[u].UpOpen? && h[u].slot < level
      ensures u in l[n..]
    {
      var j :| 0 <= j < |l| && l[j] == u;
      assert j >= n;
      assert l[n..][j - n] == u;
    }
  }

  lemma TopApart(h: Heap, th: Id)
    requires OpenLists(h) && th in h && h[th].Thread? && h[th].open != []
    ensures h[th].open[0] !in h[th].open[1..] && forall x :: x in h[th].open[1..] ==> x in h && h[x].UpOpen? && x != th
  {
    UpvalOpen(h, th, 0);
    assert OpenList(h, th, h[th].open);
    assert forall x :: x in h[th].open[1..] ==> x in h[th].open;
  }

  lemma TracesPhase(g: Snap, o: Id)
    requires TracesBut(g, o)
    ensures g.phase == GCSpropagate
  {
  }

  // These objects are as they were.
  ghost predicate SameObjects(h: Heap, h': Heap, s: seq<Id>) {
    forall u :: u in s ==> u in h && u in h' && h'[u] == h[u]
  }

  // What luaF_close does with an upvalue: a dead one is freed.
  ghost predicate Shut(g: Snap, g': Snap, u: Id) {
    if Dead(g.m, g.cw, u) then u !in g'.h else u in g'.h && g'.h[u].UpClosed?
  }

  // ... and with all other objects
  ghost predicate OthersStay(g: Snap, g': Snap, th: Id, u: Id) {
    && g'.h.Keys <= g.h.Keys && g'.cw == g.cw
    && forall x :: x in g.h && x != u ==>
        x in g'.h && (x != th ==> g'.h[x] == g.h[x]) && (Dead(g.m, g.cw, x) ==> Dead(g'.m, g.cw, x))
  }

  ghost predicate AllShut(g: Snap, g': Snap, l: seq<Id>, n: nat) {
    && n <= |l| && g'.h.Keys <= g.h.Keys && g'.cw == g.cw && (forall j :: 0 <= j < n ==> Shut(g, g', l[j]))
    && (forall j :: n <= j < |l| ==> Dead(g.m, g.cw, l[j]) ==> Dead(g'.m, g.cw, l[j]))
  }

  /** The open upvalues of th at `level` and above have been closed or freed, and the others are as they were. */
  ghost predicate ClosedAbove(g: Snap, g': Snap, th: Id, level: nat) {
    && th in g.h && g.h[th].Thread? && th in g'.h && g'.h[th].Thread?
    && g'.h[th].stack == g.h[th].stack && g'.h[th].gt == g.h[th].gt
    && (forall u :: u in g'.h[th].open <==> u in g.h[th].open && u in g.h && g.h[u].UpOpen? && g.h[u].slot < level)
    && (forall u :: u in g'.h[th].open ==> u in g'.h && u in g.h && g'.h[u] == g.h[u])
    && (forall u :: u in g.h[th].open && u !in g'.h[th].open ==> Shut(g, g', u))
  }

  lemma NoneShut(g: Snap, l: seq<Id>)
    ensures AllShut(g, g, l, 0)
  {
  }

  lemma OneMoreShut(g0: Snap, g: Snap, g': Snap, th: Id, l: seq<Id>, n: nat)
    requires AllShut(g0, g, l, n) && n < |l| && Shut(g, g', l[n]) && OthersStay(g, g', th, l[n])
    requires OpenList(g0.h, th, l) && th !in l && ValuesKept(g0, g) && (forall u :: u in l[n..] ==> u in g.h)
    ensures AllShut(g0, g', l, n + 1)
  {
    hide SameValue;
    OpenDistinct(g0.h, th, l);
    forall j | 0 <= j < n + 1
      ensures Shut(g0, g', l[j])
    {
      assert l[j] in l;
      if j < n {
        assert Shut(g0, g, l[j]) && l[j] != l[n];
      } else {
        assert l[n] in g0.h;
      }
    }
    forall j | n + 1 <= j < |l| && Dead(g0.m, g0.cw, l[j])
      ensures Dead(g'.m, g0.cw, l[j])
    {
      assert l[j] == l[n..][j - n] && l[j] in l[n..] && l[j] != l[n];
    }
  }

  lemma TopShut(g0: Snap, g: Snap, g': Snap, th: Id, l: seq<Id>, n: nat)
    requires Valid(g0) && th in g0.h && g0.h[th].Thread? && l == g0.h[th].open && AllShut(g0, g, l, n) && n < |l|
    requires Shut(g, g', l[n]) && OthersStay(g, g', th, l[n]) && ValuesKept(g0, g) && SameObjects(g0.h, g.h, l[n..])
    ensures AllShut(g0, g', l, n + 1)
  {
    hide Valid, ValuesKept, AllShut, Shut, OthersStay, OpenList;
    OpenFits(g0, th);
    OneMoreShut(g0, g, g', th, l, n);
  }

  lemma ShutAre(g: Snap, g': Snap, l: seq<Id>, n: nat)
    requires AllShut(g, g', l, n)
    ensures forall u :: u in l && u !in l[n..] ==> Shut(g, g', u)
  {
    hide Shut;
    forall u | u in l && u !in l[n..]
      ensures Shut(g, g', u)
    {
      var j :| 0 <= j < |l| && l[j] == u;
    }
  }

  lemma NoneDead(g: Snap)
    requires Valid(g) && g.phase == GCSpropagate
    ensures forall x :: x in g.h ==> !Dead(g.m, g.cw, x)
  {
    hide Upvalues, Placed, Colors, Live, Covers, RootsLive, Tri, Lists;
  }

  lemma ShutOthers(g: Snap, th: Id, m: Marking)
    requires OpenLists(g.h) && th in g.h && g.h[th].Thread? && g.h[th].open != [] && !Dead(g.m, g.cw, g.h[th].open[0])
    requires forall x :: x in g.h && Dead(g.m, g.cw, x) ==> Dead(m, g.cw, x)
    ensures var g', u := UpvalShut(g, th).(m := m), g.h[th].open[0];
            Shut(g, g', u) && OthersStay(g, g', th, u)
  {
    hide UpvalShut, Dead;
    ShutSame(g, th);
  }

  lemma ShutsAlike(g: Snap, g1: Snap, g2: Snap, th: Id, u: Id)
    requires g2.h == g1.h && g2.m == g1.m && g2.cw == g1.cw && Shut(g, g1, u) && OthersStay(g, g1, th, u)
    ensures Shut(g, g2, u) && OthersStay(g, g2, th, u)
  {
  }

  lemma AllSame(g: Snap, th: Id)
    requires Valid(g) && th in g.h && g.h[th].Thread?
    ensures SameObjects(g.h, g.h, g.h[th].open) && g.h[th].open[0..] == g.h[th].open
  {
    OpenFits(g, th);
    hide Valid;
  }

  lemma SameHead(h: Heap, h': Heap, l: seq<Id>, n: nat)
    requires n < |l| && SameObjects(h, h', l[n..])
    ensures l[n] in h && l[n] in h' && h'[l[n]] == h[l[n]]
  {
    assert l[n] in l[n..];
  }

  lemma SameAgain(h: Heap, h1: Heap, h2: Heap, l: seq<Id>, n: nat)
    requires n < |l| && SameObjects(h, h1, l[n..]) && SameObjects(h1, h2, l[n + 1..])
    ensures SameObjects(h, h2, l[n + 1..]) && l[n..][1..] == l[n + 1..]
  {
    forall u | u in l[n + 1..]
      ensures u in l[n..]
    {
      var j :| 0 <= j < |l[n + 1..]| && l[n + 1..][j] == u;
      assert l[n..][j + 1] == u;
    }
  }

  lemma ClosedAll(g: Snap, h': Heap, th: Id, n: nat, level: nat)
    requires Valid(g) && th in g.h && g.h[th].Thread? && n <= |g.h[th].open| && SameObjects(g.h, h', g.h[th].open[n..])
    requires forall j :: 0 <= j < n ==>
        g.h[th].open[j] in g.h && g.h[g.h[th].open[j]].UpOpen? && g.h[g.h[th].open[j]].slot >= level
    requires n < |g.h[th].open| ==>
        g.h[th].open[n] in g.h && g.h[g.h[th].open[n]].UpOpen? && g.h[g.h[th].open[n]].slot < level
    ensures forall u :: u in g.h[th].open[n..] <==>
        u in g.h[th].open && u in g.h && g.h[u].UpOpen? && g.h[u].slot < level
    ensures forall u :: u in g.h[th].open[n..] ==> u in h' && u in g.h && h'[u] == g.h[u]
  {
    hide Valid, OpenList;
    OpenFits(g, th);
    ClosedPart(g.h, th, g.h[th].open, n, level);
  }

  // A closed upvalue has its value alone.
  lemma ClosedWritable(g: Snap, u: Id, v: Value)
    requires Usable(g, u) && g.h[u].UpClosed? && (v.Ref? ==> Usable(g, v.id))
    ensures Writable(g, u, UpClosed(v)) && Forward(UpClosed(v)) && AddsOnly(g, u, UpClosed(v), v)
  {
  }

  // ---- the first state -------------------------------------------------------------------------------------

  const MINSTRTABSIZE: nat := 32

  // luaH_new(L, 0, 2)
  const NewTable: Obj := Tab(None, [], [Node(NoKey, Nil), Node(NoKey, Nil)], false, false, None)

  const NewMark: Mark := Mark(White(false), false, false, false)

  function FirstState(main: Id, globals: Id, reg: Id): Snap {
    Snap(map[main := Thread(Ref(globals), [Nil], []), globals := NewTable, reg := NewTable],
         map[main := NewMark, globals := NewMark, reg := NewMark], false, GCSpause, [], [], [],
         [reg, globals, main], [], 0, seq(MINSTRTABSIZE, _ => []), 0, [], main, reg, main, map[], [], {main, globals,
           reg})
  }

  lemma FirstRefers(main: Id, globals: Id, reg: Id, x: Id, r: Id)
    requires main != globals && main != reg && globals != reg
    requires var h := FirstState(main, globals, reg).h;
             x in h && Refers(h, h[x], r)
    ensures r == globals
  {
  }

  /** A new Lua state satisfies the invariant. */
  lemma FirstValid(main: Id, globals: Id, reg: Id)
    requires main != globals && main != reg && globals != reg
    ensures Valid(FirstState(main, globals, reg))
  {
    hide Upvalues, Placed, Live, Closed, Covers, RootsLive, Colors, Idle;
    FirstLists(main, globals, reg);
    FirstGraph(main, globals, reg);
    FirstRest(main, globals, reg);
  }

  lemma FirstGraph(main: Id, globals: Id, reg: Id)
    requires main != globals && main != reg && globals != reg
    ensures var g := FirstState(main, globals, reg);
            Live(g.h, g.m, g.cw) && Covers(g.h, g.m, g.k, Roots(g)) && Idle(g.h, g.m, g.cw, g.tmu)
  {
    hide Refers;
    var g := FirstState(main, globals, reg);
    forall x, r | x in g.h && Refers(g.h, g.h[x], r)
      ensures r == globals
    {
      FirstRefers(main, globals, reg, x, r);
    }
    assert Roots(g) == {main, reg};
  }

  lemma FirstRest(main: Id, globals: Id, reg: Id)
    requires main != globals && main != reg && globals != reg
    ensures var g := FirstState(main, globals, reg);
            g.m.Keys == g.h.Keys && RootsLive(g) && Colors(g.h, g.m)
  {
    var g := FirstState(main, globals, reg);
    assert Roots(g) == {main, reg};
  }

  lemma FirstLists(main: Id, globals: Id, reg: Id)
    requires main != globals && main != reg && globals != reg
    ensures var g := FirstState(main, globals, reg);
            Upvalues(g.h, g.uv) && Placed(g.h, g.m, RootList(g), g.tmu, g.strt)
  {
    hide Strings;
    var g := FirstState(main, globals, reg);
    assert RootList(g) == [reg, globals, main];
    assert OpenList(g.h, main, []);
    NoStrings(g.h, g.strt);
  }

  lemma NoStrings(h: Heap, strt: seq<seq<Id>>)
    requires (forall x :: x in h ==> !h[x].Str?) && forall b :: 0 <= b < |strt| ==> strt[b] == []
    ensures Strings(h, strt)
  {
  }
}
